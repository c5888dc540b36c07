# Battery-charging GA scheduler: a Dafny model of its core

The scheduler plans a home battery over a horizon of `totalDuration` minutes.
It searches with a genetic algorithm. An individual ("phenotype") is a sparse
list of periods. Each period has a start offset in minutes and an activity:
discharge (-1), idle (0) or charge (1). The individual also carries a policy
for surplus solar production: feed it to the grid, or charge the battery.
This project models the four parts of its engine and proves properties of them.

- `src/fitness.js`, module `Fitness` (`fitness.dfy`):
  - cutting a period into chunks that never cross an hour boundary;
  - filling the gaps between periods with idle chunks;
  - the three closed-form scorers and their dispatch;
  - the fitness fold, which subtracts each chunk's cost and tracks the battery level.
- `src/utils.js`, module `Utils` (`utils.dfy`):
  - the `random(min, max)` helper;
  - the restriction-aware activity draw;
  - parsing of `"HH:MM"` and `"MM-DD"` strings;
  - the charging-restriction predicate: a month-day season that may wrap the
    year, a half-open time-of-day window and a weekend exemption.
- `src/population.js`, module `Population` (`population.dfy`). Each individual:
  - draws activities until `numberOfPricePeriods` of them are non-idle;
  - draws distinct start offsets that include 0;
  - sorts the offsets and zips them with the activities.
- `src/mutation.js`, module `Mutation` (`mutation.dfy`). Each period is copied:
  - its activity may be redrawn;
  - a non-first start may be jittered by up to a tenth of the distance to each original neighbour.

The other files hold shared material:
- `types.dfy` (module `Types`) holds the shared datatypes: `Activity`, `PvPolicy`, `Gene`, `Phenotype`, `Option` and `Result`.
- `arith.dfy` (module `RealArith`) keeps real products behind the name `Scaled`, so proofs use a few lemmas instead of nonlinear arithmetic.

How the model stands in for the parts of the source it cannot express:

- **Randomness.** `Math.random()` becomes an explicit stream `draws: nat -> real` of values in [0, 1), read at a position. Every operation that draws returns the position after its last draw, so draws are consumed in the code's order.
- **Dates.** A JavaScript `Date` becomes a `Moment`: its calendar fields (month 1-12, day, weekday with 0 = Sunday, hours, minutes), or `Invalid`.
  - The base date plus `setMinutes(getMinutes() + offset)` becomes a `Calendar`, a function from minute offset to `Moment` that the caller supplies.
  - `Number(...)` yields `Num(int)` for a run of digits and `NaN` for anything else. Comparisons with NaN are false, as in JavaScript.
- **The period list.** The doubly linked list is a `seq`. As in the source's `map`, a mutated period sees its original neighbours.
- **Integers and reals.** Minutes are `int`. The JavaScript `%` of a negative dividend is written out as `JsRemainder`. `Math.floor(x / 60)` is Dafny's `/`, which floors for a positive divisor. Energies and prices are exact `real`s.
- **Errors.** Two lookups throw in the source, and the model returns them as values:
  - `input[Math.floor(start / 60)]` past the end of the hourly input, which `Fitness` returns as `Err(SampleOutOfRange(start))`;
  - `node.previous` of the first period during a jitter, which `Mutation` returns as `None`.

Where the project's own tests and the code disagree, the model follows the code:
- the tests expect a power limit scaled by the chunk's hours, and penalty terms (test/fitness.test.js:98-135, 346-378, 396-472); the code has neither, and uses `batteryMaxInputPower` unscaled for both `maxCharge` and `maxDischarge` (src/fitness.js:159-163);
- the tests build periods without a `duration` (test/fitness.test.js:381-424); the code reads each period's duration from the period itself (src/fitness.js:2, 21-27), so, reading the list as an array as this model does, such periods yield no chunks and the score stays 0 (src/fitness.js:151, 181). The model gives every period a duration, and `Fitness.FitnessExamples` proves the tests' -3.5 and -2.5 for the same periods with each duration running to the next start;
- a sample lookup past the end of the input throws (src/fitness.js:164-165) rather than skipping the chunk.

## Model

| member | source | states |
|---|---|---|
| Utils.Random | src/utils.js:1-3 | random(min, max) = floor(r * (max - min) + min) for the draw r; RandomBounds and RandomInRange state its range |
| Utils.RandomBounds | src/utils.js:1-3 | For min < max and a draw in [0, 1), random(min, max) lies in [floor(min), max) |
| Utils.RandomInRange | src/utils.js:1-3 | For whole numbers min < max, random(min, max) lies in [min, max), as test/utils.test.js:19-23 checks |
| Utils.SlotBelow | src/utils.js:24-30 | Counting down from k - 1 to the largest whole number that is at most r * n; the result is below k. SlotBelowFloor states its value |
| Utils.DrawIndex | src/utils.js:24-30 | Math.floor(r * n) for a draw r is a valid index into a list of n values |
| Utils.SlotBelowFloor | src/utils.js:24-30 | The count down from k - 1 stops at min(k - 1, floor(r * n)) |
| Utils.DrawIndexFloor | src/utils.js:24-30 | DrawIndex(r, n) is exactly Math.floor(r * n) |
| Utils.DrawIndexSlot | src/utils.js:24-30 | A draw in [j/n, (j+1)/n) gives index j |
| Utils.Without | src/utils.js:18-29 | The filter keeps exactly the listed values that differ from the excluded one |
| Utils.Admissible | src/utils.js:16-29 | The values the draw chooses among are exactly those other than the excluded one, without Charge when a date and restrictions are given and charging is not allowed; the list is never empty |
| Utils.GenerateRandomActivity | src/utils.js:14-32 | The result is never the excluded value and is never Charge at a restricted moment. In the restricted branch with one value left, no draw is consumed; otherwise exactly one is |
| Utils.DrawSelectsSlot | src/utils.js:24-31 | The draw is uniform over the admissible values: a draw in [j/n, (j+1)/n) selects the j-th of the n values |
| Utils.EveryActivityListed | src/utils.js:29 | The list [-1, 0, 1] the unrestricted draw filters holds every activity |
| Utils.ToNumber | src/utils.js:35 | Number(s) is a number exactly when s is a run of digits, and NaN otherwise |
| Utils.SplitOn | src/utils.js:35 | s.split(sep) has at least one part; SplitOnJoin, SplitOnPrefix and SplitOnNone state what the parts are |
| Utils.SplitOnJoin | src/utils.js:35 | Splitting on a separator loses nothing: joining the parts gives back the string, and no part contains the separator |
| Utils.SplitOnPrefix | src/utils.js:35 | A separator-free prefix followed by the separator splits off as the first part |
| Utils.SplitOnNone | src/utils.js:35 | A string without the separator splits into itself alone |
| Utils.ParseFieldsProperty | src/utils.js:35-40 | A string of two digit runs joined by a non-digit separator splits into those two runs |
| Utils.ParseTime | src/utils.js:34-37 | "H:M" with digit runs H and M parses to the hours and minutes they denote |
| Utils.ParseDate | src/utils.js:39-42 | "M-D" with digit runs M and D parses to the month and day they denote |
| Utils.MinuteOfDay | src/utils.js:50-52 | A time of day as minutes since midnight, hours * 60 + minutes, and NaN when either field is NaN; TimeWindowHalfOpen uses it to state the window in minutes |
| Utils.IsWithinTimeRange | src/utils.js:44-55 | The minute of the day lies in [start, end), with every NaN comparison false; TimeWindowHalfOpen states it |
| Utils.IsWithinDateRange | src/utils.js:57-88 | The branches of isWithinDateRange, wrapping the year when the start month is after the end month; DateRangeIsSeason, WrappingDateRange and NonWrappingDateRange state it |
| Utils.InSeason | src/utils.js:57-88 | The reference meaning of a month-day range: on or after the start and on or before the end, or either one when the range wraps the year |
| Utils.DateRangeIsSeason | src/utils.js:57-88 | For a valid date and parsed bounds, isWithinDateRange agrees with a lexicographic reference on (month, day) pairs: on or after the start and on or before the end, or, when the range wraps the year, on or after the start or on or before the end |
| Utils.WrappingDateRange | src/utils.js:63-75 | For start month > end month: months strictly between end and start are outside; in the start month the test is day >= start day; in the end month it is day <= end day; all other months are inside |
| Utils.NonWrappingDateRange | src/utils.js:77-88 | For start month <= end month: months outside [start month, end month] are excluded, and for a non-empty range both endpoint days are included |
| Utils.TimeWindowHalfOpen | src/utils.js:44-55 | The window holds exactly the minutes of the day in [start, end): the start minute is inside, the end minute is outside, and a window whose start equals its end restricts nothing |
| Utils.IsWeekend | src/utils.js:99-100 | A date falls on a weekend exactly when its day of the week is 0 (Sunday) or 6 (Saturday); an invalid date is never a weekend. WeekendExemption states what the exemption does with it |
| Utils.IsChargingAllowed | src/utils.js:90-113 | No restrictions allow; an exempt weekend allows; otherwise charging is refused exactly inside both the date range and the time window. ChargingAllowedCharacterisation states it |
| Utils.AllowedWithoutRestrictionsOrDate | src/utils.js:90-112 | With no restrictions, charging is always allowed. An invalid date is always allowed, since every NaN comparison fails |
| Utils.WeekendExemption | src/utils.js:96-102 | With allowWeekends absent or true, Saturday and Sunday are always allowed. With it false, charging is allowed exactly when the date is outside the season or the time is outside the window |
| Utils.ChargingAllowedCharacterisation | src/utils.js:90-112 | For a valid date and well-formed restrictions, charging is refused exactly when the day is not weekend-exempt, the month-day is in the season and the time is in the window |
| Utils.TwoDigitFields | src/utils.js:34-42 | Two digits, a separator and two more digits split into the two fields, and each field has the value its digits spell |
| Utils.WinterDaysStartDate | test/utils.test.js:27-33 | "11-01" parses to November 1 |
| Utils.WinterDaysEndDate | test/utils.test.js:27-33 | "03-31" parses to March 31 |
| Utils.WinterDaysStartTime | test/utils.test.js:27-33 | "07:00" parses to 7 hours 0 minutes |
| Utils.WinterDaysEndTime | test/utils.test.js:27-33 | "20:00" parses to 20 hours 0 minutes |
| Utils.WinterDaysRule | test/utils.test.js:27-33 | The restriction of the tests (November 1 to March 31, 07:00 to 20:00, weekends allowed) refuses charging exactly on weekdays inside that season and window |
| Utils.WinterDaysExamples | test/utils.test.js:40-219 | The tests' cases: mid-January noon refused; 21:00 allowed; March 31 noon refused; April 1 allowed; 07:00 refused; 20:00 allowed; October 31 allowed |
| Fitness.JsRemainder | src/fitness.js:5 | JavaScript's `%`: the remainder lies strictly between -60 and 60 and agrees with the mathematical remainder for a non-negative start |
| Fitness.TilesSpan | src/fitness.js:1-15 | A tiling of [from, to) has total duration to - from; each chunk starts where the previous ended and lies inside [from, to) |
| Fitness.TilesAppend | src/fitness.js:31-51 | A tiling of [x, y) followed by a tiling of [y, z) tiles [x, z) |
| Fitness.HourChunks | src/fitness.js:1-15 | The splitter's loop from a start with a remaining duration; HourChunksTile, HourChunksAligned, HourChunksPositive and HourChunksActivity state it |
| Fitness.HourIntervals | src/fitness.js:17-19 | splitIntoHourIntervals(seed); HourIntervalsProperties states it |
| Fitness.HourChunksTile | src/fitness.js:1-15 | A non-positive remainder yields no chunks. A positive one yields chunks that tile [start, start + remaining), all with the period's activity |
| Fitness.HourChunksAligned | src/fitness.js:4-12 | From a non-negative start, every chunk has 0 < duration <= 60 and start % 60 + duration <= 60 |
| Fitness.HourChunksPositive | src/fitness.js:4-10 | Every chunk the splitter yields has positive duration |
| Fitness.HourIntervalsProperties | src/fitness.js:1-19 | Duration <= 0 gives no chunks. Duration >= 0 gives chunks that tile [start, start + duration), so their durations sum to the duration. Every chunk keeps the activity, and from start >= 0 none crosses an hour boundary |
| Fitness.SplitIntoHourIntervals | src/fitness.js:1-19 | The generator's while loop yields the chunk sequence HourIntervals, which tiles the period, keeps its activity and is hour-aligned |
| Fitness.SplitExamples | test/fitness.test.js:66-95 | {0,60}, {0,90}, {30,60} and {30,120} split as the tests expect, e.g. {30,120} gives [{30,30},{60,60},{120,30}] |
| Fitness.End | src/fitness.js:21 | The first minute after a period: its start plus its duration. NormalPeriod, GapBefore and FilledTimelineTiles use it as the end of each tile |
| Fitness.NormalPeriod | src/fitness.js:21-29 | The filler starts where g1 ends, ends at the next start and is idle |
| Fitness.Predecessor | src/fitness.js:34-45 | The period before position i: p[i-1], or the zero-length origin { start: 0, duration: 0 } for i = 0 and for the tail of an empty list; GapBefore states that the filler after it is never negative for ordered periods |
| Fitness.FilledPrefix | src/fitness.js:31-43 | The chunks yielded by the first n iterations of the generator's loop: a filler before each period, then the period's chunks; FilledPrefixTiles, FilledPrefixAligned and FilledPrefixActivity state it |
| Fitness.FilledTimeline | src/fitness.js:31-55 | Everything the generator yields, with the idle tail to totalDuration; FilledTimelineTiles, FilledTimelineAligned and FilledTimelineActivity state it |
| Fitness.FillInNormalPeriods | src/fitness.js:31-55 | The generator's loop yields FilledTimeline. For sorted, non-overlapping, non-negative periods that end by totalDuration, the output tiles [0, totalDuration) in hour-aligned chunks |
| Fitness.OrderedChain | src/fitness.js:31-43 | In an ordered period list every period ends by the start of every later one |
| Fitness.GapBefore | src/fitness.js:32-36 | For ordered periods, each filler before a period has non-negative length and starts at or after 0 |
| Fitness.FilledPrefixTiles | src/fitness.js:31-43 | After n loop iterations, the yielded chunks tile [0, end of period n-1) |
| Fitness.PieceTiles | src/fitness.js:37-42 | The chunks of one non-negative interval tile it |
| Fitness.FilledPrefixAligned | src/fitness.js:31-43 | After n loop iterations, no yielded chunk crosses an hour boundary |
| Fitness.AlignedAppend | src/fitness.js:31-51 | Concatenating hour-aligned chunk lists keeps them hour-aligned |
| Fitness.FilledTimelineTiles | src/fitness.js:31-51 | Ordered periods become a gapless timeline from 0 to totalDuration whose durations sum to totalDuration |
| Fitness.FilledTimelineAligned | src/fitness.js:31-51 | No chunk of the filled timeline crosses an hour boundary |
| Fitness.ActivityAtAppend | src/fitness.js:31-51 | The first chunk covering a minute in a + b is the one from a if a covers the minute, else the one from b |
| Fitness.ActivityAtNone | src/fitness.js:31-51 | A minute that no interval covers has no activity |
| Fitness.HourChunksActivity | src/fitness.js:1-15 | The chunks of a period cover exactly its minutes, each with the period's activity |
| Fitness.PieceActivity | src/fitness.js:37-42 | The chunks of one interval cover exactly its minutes, with its activity |
| Fitness.FilledPrefixActivity | src/fitness.js:31-43 | After n iterations, each minute before the end of period n-1 carries that period's activity, or Idle in a gap |
| Fitness.PeriodsPrefixActivity | src/fitness.js:31-43 | The activity at a minute over the first n periods is that of the first n-1 periods, or else that of period n-1 |
| Fitness.EarlierPeriodsMiss | src/fitness.js:31-43 | For ordered periods, a minute at or after the end of period n-2 lies in none of the first n-1 periods |
| Fitness.FilledTimelineActivity | src/fitness.js:23-51 | Every minute of the horizon is covered by a chunk. Its activity is that of the period containing the minute, or Idle (0) if the minute lies in a gap |
| Fitness.FilledChunksPositive | src/fitness.js:31-51 | Whatever the periods, gap filling yields only chunks of positive duration |
| Fitness.FilledPrefixPositive | src/fitness.js:31-43 | Every chunk of every prefix of the generator's output has positive duration |
| Fitness.DischargeScore | src/fitness.js:60-89 | calculateDischargeScore: production first, then the battery up to maxDischarge, then the grid; DischargeEnergyBalance and ScoreIsMeteredExchange state it |
| Fitness.NormalScore | src/fitness.js:91-113 | calculateNormalScore: production first, surplus to the battery only under ChargeBattery, the rest from the grid; NormalFeedToGrid and ScoreIsMeteredExchange state it |
| Fitness.ChargeScore | src/fitness.js:115-134 | calculateChargeScore: the battery takes exactly maxCharge, from surplus production first and the grid for the rest; BatteryFlowWithinLimits and ScoreIsMeteredExchange state it |
| Fitness.PeriodScore | src/fitness.js:136-145 | Dispatch on the activity: -1 discharges, 1 charges, 0 is normal; ScoreIsMeteredExchange and BatteryFlowWithinLimits state it per activity |
| Fitness.DischargeEmptyIsNormal | src/fitness.js:60-113 | With maxDischarge 0, discharging scores exactly like staying idle |
| Fitness.NormalFeedToGrid | src/fitness.js:91-113 | When surplus is fed to the grid, idle chunks leave the battery alone and cost importPrice * max(cons - prod, 0) - exportPrice * max(prod - cons, 0) |
| Fitness.DischargeEnergyBalance | src/fitness.js:60-89 | Production, battery and grid together cover exactly the consumption. With physical inputs the battery gives between 0 and maxDischarge, and the grid supplies max(cons - prod - maxDischarge, 0) |
| Fitness.ScoreIsMeteredExchange | src/fitness.js:60-145 | Each scorer, after dispatch on the activity, prices a balanced grid exchange. Cost = importPrice * bought - exportPrice * sold, and production + bought = consumption + charge + sold. With non-negative inputs nothing is bought or sold in a negative amount |
| Fitness.BatteryFlowWithinLimits | src/fitness.js:60-145 | With non-negative inputs, every chunk's charge lies in [-maxDischarge, maxCharge]. Charging always stores exactly maxCharge. Discharging under FeedToGrid takes at most maxDischarge and never charges. Idle under FeedToGrid leaves the battery alone, and under ChargeBattery it only adds to it |
| Fitness.DischargeFullBattery | test/fitness.test.js:140-151 | Discharge, consumption 1, no production, maxDischarge 1 gives [0, -1] |
| Fitness.DischargeEmptyBattery | test/fitness.test.js:152-163 | maxDischarge 0 gives [2, 0] |
| Fitness.DischargeAlmostEmptyBattery | test/fitness.test.js:164-175 | maxDischarge 0.5 gives [1, -0.5] |
| Fitness.DischargeEqualProduction | test/fitness.test.js:176-187 | Production equal to consumption gives [0, 0] |
| Fitness.DischargeDoubleProduction | test/fitness.test.js:188-199 | Double production under FeedToGrid gives [-2, 0] |
| Fitness.DischargeDoubleProductionChargePreference | test/fitness.test.js:200-212 | Double production under ChargeBattery gives [0, 1] |
| Fitness.ChargeFullBattery | test/fitness.test.js:216-227 | Charge with maxCharge 0 gives [2, 0] |
| Fitness.ChargeEmptyBattery | test/fitness.test.js:228-240 | maxCharge 1 gives [4, 1] |
| Fitness.ChargeAlmostFullBattery | test/fitness.test.js:241-252 | maxCharge 0.5 gives [3, 0.5] |
| Fitness.ChargeEqualProduction | test/fitness.test.js:253-265 | Production equal to consumption gives [2, 1] |
| Fitness.ChargeDoubleProduction | test/fitness.test.js:266-278 | Double production gives [0, 1] |
| Fitness.ChargeTripleProductionChargePreference | test/fitness.test.js:279-291 | Triple production under ChargeBattery gives [-2, 1] |
| Fitness.NormalNoProduction | test/fitness.test.js:295-306 | Idle, consumption 1, no production gives [2, 0] |
| Fitness.NormalEqualProduction | test/fitness.test.js:307-318 | Production equal to consumption gives [0, 0] |
| Fitness.NormalDoubleProductionChargePreference | test/fitness.test.js:319-331 | Double production under ChargeBattery gives [0, 1] |
| Fitness.NormalDoubleProductionFeedToGrid | test/fitness.test.js:332-343 | Double production under FeedToGrid gives [-2, 0] |
| Fitness.DischargeScoreExamples | test/fitness.test.js:139-212 | All six discharge cases of the tests |
| Fitness.ChargeScoreExamples | test/fitness.test.js:215-291 | All six charge cases of the tests |
| Fitness.NormalScoreExamples | test/fitness.test.js:294-343 | All four idle cases of the tests |
| Fitness.NoProductionScores | src/fitness.js:60-134 | Without production, idle costs importPrice * consumption, charging costs importPrice * (consumption + maxCharge) and stores maxCharge, and discharging takes min(consumption, maxDischarge) from the battery and buys the rest |
| Fitness.TestChunkInput | test/fitness.test.js:15-63 | With the tests' five hours of price 1 and consumption 1, no production, capacity and power 1, a chunk at level l in [0, 1] gets consumption duration / 60, maxCharge 1 - l and maxDischarge l |
| Fitness.TestIdleChunk | test/fitness.test.js:381-424 | For the tests' inputs, an idle chunk costs duration / 60 and leaves the level alone |
| Fitness.TestChargeChunk | test/fitness.test.js:381-424 | For the tests' inputs, a charge chunk at level l costs duration / 60 + (1 - l) and fills the battery |
| Fitness.TestDischargeChunk | test/fitness.test.js:381-424 | For the tests' inputs, a discharge chunk at level l takes min(duration / 60, l) from the battery and buys the rest |
| Fitness.FoldCons | src/fitness.js:154-179 | A chunk whose sample exists and whose score is v moves the fold to score - cost and level + charge, then folds the rest |
| Fitness.FoldChunk | src/fitness.js:154-179 | A chunk whose input is known and whose score is v moves the fold to score - cost and level + charge |
| Fitness.FoldFourChunks | test/fitness.test.js:381-424 | Four chunks scoring (0.5, 0), (1.5, 1), (0.5, 0) and (0, -0.5) at levels 0, 0, 1 and 1 take the fold from (0, 0) to (-2.5, 0.5) |
| Fitness.FoldLastHour | test/fitness.test.js:381-394 | A final idle hour costing 1 at level 0.5 takes the fold from -2.5 to -3.5 |
| Fitness.FoldExampleChunks | test/fitness.test.js:381-424 | The four chunks fold to -2.5 at level 0.5, and with the idle hour after them to -3.5 |
| Fitness.TestFold | test/fitness.test.js:381-424 | For the tests' inputs and an empty battery, the chunks (0,30,idle), (30,30,charge), (60,30,charge), (90,30,discharge) fold to score -2.5 and level 0.5, and with (120,60,idle) after them to -3.5 |
| Fitness.ContiguousStep | src/fitness.js:31-43 | A period that starts where its predecessor ends adds no idle filler, only its own chunks |
| Fitness.ContiguousPrefix | src/fitness.js:31-43 | For periods that each start where the previous one ends, the generator yields just their chunks, one period after the other |
| Fitness.FilledPrefixTake | src/fitness.js:31-43 | What the generator has yielded after n periods depends only on those n periods |
| Fitness.ContiguousTail | src/fitness.js:44-50 | When the last period ends at totalDuration, no idle tail is added |
| Fitness.ContiguousTimeline | src/fitness.js:31-55 | Contiguous periods from 0 whose last ends at totalDuration are filled into exactly their own chunks |
| Fitness.TimelineOfPieces | src/fitness.js:31-55 | The same, for a known list of chunks |
| Fitness.TestSplit | test/fitness.test.js:381-424 | The tests' periods, with durations to the next start, cut into (0,30,idle), (30,30,charge), (60,30,charge), (90,30,discharge) and (120,60,idle); the first three give the first four chunks |
| Fitness.TestContiguous | test/fitness.test.js:381-424 | The tests' periods, with durations to the next start, are contiguous from 0 |
| Fitness.TestTimeline | test/fitness.test.js:381-424 | Gap filling of those periods over 180 minutes yields the five chunks, and of the first three over 120 minutes the first four |
| Fitness.FitnessOfFold | src/fitness.js:147-182 | The fitness of a schedule is the score its filled timeline folds to from the initial state |
| Fitness.TestInitialState | test/fitness.test.js:381-424 | With soc 0 the fold starts at score 0 and level 0 |
| Fitness.ThreeHourFitness | test/fitness.test.js:381-394 | The tests' four periods over 180 minutes score -3.5 |
| Fitness.TwoHourFitness | test/fitness.test.js:413-424 | The first three periods over 120 minutes score -2.5 |
| Fitness.FitnessExamples | test/fitness.test.js:381-424 | Both examples: -3.5 for the four periods over 180 minutes, -2.5 for the first three over 120 minutes |
| Fitness.ChunkProps | src/fitness.js:158-176 | The scorer's input for one chunk at a battery level: the lookup error exactly when hour floor(start / 60) is outside the input, and otherwise that hour's prices, its consumption and production scaled by duration / 60, maxCharge = min(power, capacity - level), maxDischarge = min(power, level) and the phenotype's policy |
| Fitness.Fold | src/fitness.js:152-179 | The loop over the chunks: each chunk's cost is subtracted from the score and its charge added to the level, and the first lookup error ends the fold; its lemmas below (FoldStep, FoldCons, FoldDefinedIff, FoldKeepsBatteryInRange) state what it promises |
| Fitness.InitialState | src/fitness.js:151-152 | The fold starts from score 0 and battery level soc * batteryMaxEnergy; TestInitialState gives (0, 0) for soc 0, and FitnessKeepsBatteryInRange starts from it |
| Fitness.FitnessValue | src/fitness.js:147-182 | fitnessFunction(props)(phenotype): the fold of the filled timeline from score 0 and level soc * batteryMaxEnergy; FitnessDefinedIff, FitnessKeepsBatteryInRange and FitnessExamples state its properties |
| Fitness.FoldStep | src/fitness.js:154-179 | One iteration of the fold: the chunk's lookup error, or the rest of the fold from the level and score updated by the chunk's charge and cost |
| Fitness.FitnessFunction | src/fitness.js:147-182 | The loop over the filled timeline, from score 0 and level soc * batteryMaxEnergy, returns the fold's final score (minus the summed costs), or the first lookup error |
| Fitness.StepKeepsBattery | src/fitness.js:159-178 | With non-negative power and samples, one chunk moves a level in [0, batteryMaxEnergy] to a level in the same range |
| Fitness.FoldKeepsBatteryInRange | src/fitness.js:152-179 | From a level in [0, batteryMaxEnergy], every level the fold reaches stays in that range |
| Fitness.FitnessKeepsBatteryInRange | src/fitness.js:147-182 | With soc in [0, 1], capacity >= 0 and non-negative power, consumption and production, the battery level after any prefix of the filled timeline lies in [0, batteryMaxEnergy] |
| Fitness.FoldDefinedIff | src/fitness.js:164-165 | The fold fails exactly when some chunk has no hourly sample |
| Fitness.IndexedIff | src/fitness.js:164-165 | A timeline that tiles [0, T) in hour-aligned chunks finds a sample for every chunk exactly when T <= 60 * the number of samples |
| Fitness.HourIndexInRange | src/fitness.js:165 | A minute in [0, 60n) lies in an hour below n |
| Fitness.HourIndexPastEnd | src/fitness.js:165 | A chunk inside one hour that covers minute 60n lies in hour n |
| Fitness.TilesCover | src/fitness.js:31-51 | Every minute of a tiled range is covered by one of its chunks |
| Fitness.FitnessDefinedIff | src/fitness.js:147-182 | For ordered periods, fitnessFunction returns a score exactly when totalDuration <= 60 * the number of samples; otherwise the lookup throws |
| Population.NonIdleCount | src/population.js:22-34 | The count of non-idle activities never exceeds the number of activities |
| Population.NonIdleCountPrefix | src/population.js:34-35 | Appending an activity keeps the earlier prefixes and adds one to the count exactly when it is not idle |
| Population.AppendNoRepeat | src/population.js:32-36 | Appending an activity that differs from the previous one keeps consecutive activities distinct |
| Population.AppendRespects | src/population.js:27-32 | An activity that is not Charge at a restricted moment (base date + 30 minutes per earlier non-idle activity) keeps the restriction respected |
| Population.AppendDraw | src/population.js:32-36 | One iteration of the activity loop keeps both invariants, counts the new activity and makes it the last one |
| Population.DrawnInOrder | src/population.js:21-37 | The activity loop's invariant stated one draw at a time: each draw differs from the one before and is not Charge at a restricted moment; DrawnInOrderMeans states what it means |
| Population.DrawnInOrderMeans | src/population.js:21-37 | Drawing in order holds exactly when consecutive activities differ and no Charge falls on a restricted moment |
| Population.ActivityStep | src/population.js:21-37 | One iteration of the activity loop keeps its invariants: the draws stay in order, the non-idle count grows by one exactly for a non-idle draw and stays within the target, and the last draw is non-idle once the target is reached |
| Population.DrawActivities | src/population.js:21-37 | The loop ends with exactly numberOfPricePeriods non-idle activities, and the last one is non-idle. Consecutive activities differ, and none is Charge at a restricted projected moment |
| Population.PolicyOf | src/population.js:13 | excessPvEnergyUse, or 0 (feed to grid) when the field is absent; every generated individual carries it, as Generated and PopulationFunction state |
| Population.WellFormed | src/population.js:19-53 | Everything one generated individual satisfies: the activity loop's properties, the policy, starts strictly increasing from 0, and a valid schedule for totalDuration >= 1; IndividualWellFormed and GenerateIndividual establish it |
| Population.DrawStart | src/population.js:42 | Math.floor(r * totalDuration); DrawStartBounds states its range |
| Population.DrawStartBounds | src/population.js:42 | Math.floor(r * totalDuration) lies in [0, max(totalDuration, 1)) |
| Population.Drawn | src/population.js:41-42 | The n offsets drawn from consecutive positions, one per loop iteration |
| Population.DrawnAt | src/population.js:41-42 | The k-th drawn offset is Math.floor(draws(pos + k) * totalDuration) |
| Population.AddAll | src/population.js:40-42 | Set.add of each value in turn, keeping the first insertion order |
| Population.DrawStep | src/population.js:41-42 | One more draw adds its offset to the set unless it is already there |
| Population.AddAllElements | src/population.js:40-42 | The set holds exactly the initial values and the added ones |
| Population.AddAllStartSet | src/population.js:39-42 | Adding values to {0} keeps them distinct with 0 first |
| Population.DrawnStartsOrigin | src/population.js:40-42 | Every start of the set other than 0 is the offset drawn at one of the consumed positions |
| Population.DrawnInRange | src/population.js:40-42 | For totalDuration >= 0, every start of the set lies in [0, max(totalDuration, 1)) |
| Population.DrawnSetFacts | src/population.js:39-43 | The set after n draws is distinct, has 0 first, holds only drawn offsets, and for totalDuration >= 0 lies in [0, max(totalDuration, 1)) and has at most that many elements |
| Population.DrawStarts | src/population.js:39-43 | The start set holds 0 first, its elements are distinct and there is one per activity, and every other start is the offset drawn at one of the positions used. For totalDuration >= 0 every start lies in [0, max(totalDuration, 1)), and the loop can only finish when totalDuration >= the number of activities. At most one activity needs no draw; running out of fuel has used all of it |
| Population.DrawnFromWiden | src/population.js:39-43 | A start drawn within a window of positions was drawn within any wider window |
| Population.SortedDrawnFrom | src/population.js:44-45 | Sorting the set keeps every start drawn, and an earlier first position widens the window |
| Population.DistinctInRange | src/population.js:41-42 | More distinct starts than values in [0, m) cannot exist, so the start loop cannot finish when totalDuration is below the number of activities |
| Population.DistinctCard | src/population.js:39-43 | A sequence without repeats has as many elements as its set |
| Population.RangeCard | src/population.js:41-42 | A set of integers in [0, m) has at most max(m, 0) elements |
| Population.Insert | src/population.js:45 | Inserting a new value into a strictly increasing list keeps it strictly increasing, adds one element and adds exactly that value |
| Population.SortAscending | src/population.js:44-45 | Sorting distinct values yields a strictly increasing list with the same length and elements |
| Population.Zip | src/population.js:46-48 | The i-th period gets the i-th sorted start and the i-th activity |
| Population.SortedStartsFirstZero | src/population.js:40-45 | The sorted start set of non-negative starts that contains 0 begins with 0 |
| Population.SortedStartsValid | src/population.js:39-48 | Sorted starts beginning at 0 and below totalDuration form a valid schedule |
| Population.IndividualWellFormed | src/population.js:39-53 | The zipped individual is well formed when the starts, after sorting, are distinct, include 0 and lie in range, and the activities satisfy the loop's properties |
| Population.AssembledIndividual | src/population.js:39-53 | The drawn activities zipped with the sorted drawn starts form a well-formed individual whose every start is 0 or drawn |
| Population.GenerateIndividual | src/population.js:19-53 | Each generated individual is well formed. It has exactly numberOfPricePeriods non-idle activities, a non-idle last one, no two equal neighbours and no Charge at a restricted moment. Its first start is 0, its starts strictly increase, it carries the policy, and for totalDuration >= 1 every start is below totalDuration. Every start is 0 or drawn from the positions it used; no individual means its start draws used all the fuel |
| Population.PopulationStep | src/population.js:50-53 | Appending an individual generated from the later positions keeps every individual well formed with every start 0 or drawn from the positions used so far |
| Population.PopulationFunction | src/population.js:8-55 | Exactly max(populationSize, 0) individuals, each well formed and carrying excessPvEnergyUse, with FeedToGrid (0) as the default, and each start 0 or drawn from the positions used. A non-positive populationSize gives the empty population without a draw; no population means some individual's start draws used all the fuel. test/population.test.js:5-21 checks the head start and the non-idle count |
| Mutation.TimeAdjustment | src/mutation.js:10-12 | timeAdjustment(low, mid, high) = random(0.1 * (low - mid), 0.1 * (high - mid)); TimeAdjustmentBounds states its range |
| Mutation.NextStart | src/mutation.js:31 | The upper neighbour of period k for the jitter: the start of period k+1, or totalDuration for the last period; JitterBounds and StartOfCopy state the jitter against it |
| Mutation.TimeAdjustmentBounds | src/mutation.js:10-12 | timeAdjustment(low, mid, high) lies in [floor(0.1 * (low - mid)), 0.1 * (high - mid)) |
| Mutation.MutatedActivity | src/mutation.js:16-25 | The first rate draw decides whether the activity is redrawn at base date + the period's start; ActivityResample states it |
| Mutation.MutateGene | src/mutation.js:15-34 | The callback on one period: the activity step, then the jitter when the start is positive and the second rate draw fires, throwing for the first period; MutateGeneFails, StartOfCopy and StartKeptOrUnchanged state it |
| Mutation.CopyStep | src/mutation.js:15-35 | The map callback over the original periods: period k copied by MutateGene from the current draw position, which CopyStepIsMutateGene states |
| Mutation.Mutated | src/mutation.js:7-38 | mutationFunction(props)(phenotype): the map of copies with the policy kept, or the throw; MutationKeepsSchedule and MutationIdentityBelowRate state it |
| Mutation.MapCopies | src/mutation.js:15-35 | The map yields one copy per period, unless some copy throws |
| Mutation.MapCopiesStep | src/mutation.js:15-35 | One more period: the map grows by that period's copy, or throws with it |
| Mutation.MapCopiesFailureSticks | src/mutation.js:15-35 | Once a copy throws, the whole map throws |
| Mutation.MapCopiesElements | src/mutation.js:15-35 | The k-th output period is the k-th callback's copy, made from the draws left by the copies before it |
| Mutation.MapCopiesNeverFails | src/mutation.js:15-35 | A callback that never throws yields a complete map |
| Mutation.CopyStepIsMutateGene | src/mutation.js:15-34 | The mapped callback on period k is the per-period mutation of period k |
| Mutation.MutationFunction | src/mutation.js:7-38 | The map as a loop over the periods that threads the draw position yields Mutated exactly: the same periods, the same policy and the same draws used, or the same throw |
| Mutation.ActivityResample | src/mutation.js:16-25 | When the first rate draw fires, the activity changes, and it is not Charge where charging is restricted at base date + the period's start. Otherwise the activity is kept |
| Mutation.StartKeptOrUnchanged | src/mutation.js:16-34 | A period starting at 0 keeps its start and never throws. When neither rate draw fires, the period is copied unchanged |
| Mutation.MutateGeneFails | src/mutation.js:27-29 | A copy throws exactly for the first period when its start is positive and its jitter draw fires, since node.previous is null there |
| Mutation.StartOfCopy | src/mutation.js:27-33 | A non-first copy's start is the old start plus timeAdjustment(previous start + 1, start, next start or totalDuration) when the start is positive and the second rate draw fires, and the old start otherwise |
| Mutation.JitterBounds | src/mutation.js:10-12 | In a valid schedule, the shift of a non-first start lies in [floor(0.1 * (previous + 1 - start)), 0.1 * (next - start)), using the original neighbours and totalDuration for a missing next |
| Mutation.NeighboursStayOrdered | src/mutation.js:10-12 | Two neighbours a < b, each moved within its tenth-of-distance bound, stay in order |
| Mutation.CopyOfValidSchedule | src/mutation.js:15-34 | In a valid schedule no copy throws, the first copy keeps start 0 and every other copy respects the jitter bounds |
| Mutation.ChainIncreasing | src/mutation.js:15-35 | Starts that increase between neighbours increase throughout, up to the last |
| Mutation.ChainStep | src/mutation.js:15-35 | Neighbour-wise increasing starts are increasing between any two positions |
| Mutation.MutationKeepsSchedule | src/mutation.js:7-38 | A valid schedule (first start 0, strictly increasing, all below totalDuration) mutates without throwing. The result has the same number of periods and the same policy, and is again a valid schedule |
| Mutation.MutationIdentityBelowRate | src/mutation.js:14-37 | When no draw falls below mutationRate, the mutated phenotype equals the original |
| Mutation.GoldenFirstCopy | test/mutation.test.js:6-34 | With every draw 0.4 and rate 1, the period (0, charge) becomes (0, discharge) using two draws |
| Mutation.GoldenSecondCopy | test/mutation.test.js:6-34 | With every draw 0.4 and rate 1, the period (90, discharge) becomes (85, idle) using four draws |
| Mutation.GoldenMutation | test/mutation.test.js:6-34 | With every draw 0.4, mutationRate 1 and totalDuration 120, [(0, charge), (90, discharge)] becomes [(0, discharge), (85, idle)], with the policy kept |
| Mutation.MapTwoCopies | src/mutation.js:15-35 | Mapping over two periods gives the first copy, then the second drawn from where the first left off |

## Left out

- `src/strategy-battery-charging.js` is not part of this model. It registers the node and wires messages, and it only scales `mutationRate` and `soc` by 1/100 before calling the core.
- The GA driver (`src/strategy-battery-charging-functions`) is not part of this model. That covers its generation loop, crossover, the no-battery baseline and any EV logic.
- `src/schedule` is not part of this model. Its doubly linked list is a sequence.
- The stochastic end-to-end runs in test/strategy-battery-charging-functions.test.js state no property that holds for all draws.
- Test expectations that `src/fitness.js` does not implement are not modelled:
  - `allPeriods`;
  - a four-argument `calculatePeriodScore` that scales the power limit by duration (test/fitness.test.js:98-135, 346-378);
  - zero-movement and full-battery penalties (test/fitness.test.js:396-472).
- The fitness tests of test/fitness.test.js:381-424 are not modelled as written. Only 396-411 needs the penalty terms the code lacks. The periods of 381-394 and 413-424 carry no `duration`, so the code as written, reading the list as an array as this model does, yields no chunks and returns 0 (src/fitness.js:2-4, 151, 181). `Fitness.FitnessExamples` proves -3.5 and -2.5 for those periods with each duration running to the next start.
- Date construction, `setMinutes` arithmetic, time zones and the `new Date()` clock fallback are replaced by the caller-supplied `Calendar`. This applies both to the `input[0]?.start` base date and to the clock.
- `Math.random` as global state is replaced by the explicit `draws` stream.
- IEEE-754 rounding is not modelled: prices and energies are exact reals, and `Math.floor` is `.Floor`.
- `Utils.ToNumber`: only digit strings are numbers. Signs, decimals, whitespace and exponent forms, which JavaScript's `Number` also accepts, become NaN here. The restriction strings of the source are digit pairs.
- `Utils.GenerateRandomActivity`: its `excluded` is an `Activity` or `None`. The source's filter also accepts arbitrary numbers, which exclude nothing, as `None` does.
- `Fitness.PeriodScore`: activities are the three values -1, 0 and 1. The source's `default` branch, which sends any other number to the normal scorer, has no counterpart.
- `Fitness.FitnessFunction`: its periods carry a `duration`, which `fillInNormalPeriodsGenerator` reads. Periods without one, as population and mutation produce them, give JavaScript NaN arithmetic when the list is read as an array, as this model does; that arithmetic is not modelled. The tests pass a `DoublyLinkedList` from `src/schedule`, which is not part of this model.
- `Fitness.FitnessFunction`: its `ensures` ties the result to the reference fold. The iff between success and `totalDuration <= 60 * |input|` is the separate lemma `Fitness.FitnessDefinedIff`.
- `Population.GenerateIndividual` requires `numberOfPricePeriods >= 1`. With 0 or less, the source draws no activity but still adds start 0, and zips it with an undefined activity.
- `Population.PopulationFunction` requires `numberOfPricePeriods >= 1` only when `populationSize > 0`, for the same reason. An empty population is modelled for every `numberOfPricePeriods`.
- `Population.DrawStarts` bounds the start-set loop by a `fuel` count of draws and returns `None` when the fuel runs out. The source loops until the set is full, forever when `totalDuration` is below the number of activities.
- `Population.WellFormed`: for `totalDuration < 0` the first start is not promised to be 0. `Math.floor(r * totalDuration)` is then negative, and the sort may put it before 0.
