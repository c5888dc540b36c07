/** The scoring side of src/fitness.js: cutting periods into chunks that never
    cross an hour, filling the gaps of a sparse period list with idle chunks,
    the three per-chunk economic formulas, and the left-to-right fold that
    scores a schedule while tracking the battery level. Minutes are integers;
    prices and energies are exact reals. */
module Fitness {
  import opened Types
  import opened RealArith

  /** A period with its duration resolved, or one chunk of it. */
  datatype Interval = Interval(start: int, duration: int, activity: Activity)

  function End(g: Interval): int {
    g.start + g.duration
  }

  function MinInt(a: int, b: int): int {
    if a <= b then a else b
  }

  function MinReal(a: real, b: real): real {
    if a <= b then a else b
  }

  /** JavaScript's `%`: the remainder takes the sign of the dividend. */
  function JsRemainder(a: int, b: int): (r: int)
    requires b > 0
    ensures -b < r < b
    ensures a >= 0 ==> r == a % b
  {
    if a >= 0 then a % b else -((-a) % b)
  }

  // ---------------------------------------------------------------------
  // Interval splitting, src/fitness.js:1-19
  // ---------------------------------------------------------------------

  /** The chunks the generator yields from `start` with `remaining` minutes left. */
  function HourChunks(start: int, remaining: int, activity: Activity): seq<Interval>
    decreases remaining
  {
    if remaining <= 0 then []
    else
      var i := MinInt(60 - JsRemainder(start, 60), remaining);
      [Interval(start, i, activity)] + HourChunks(start + i, remaining - i, activity)
  }

  function HourIntervals(seed: Interval): seq<Interval> {
    HourChunks(seed.start, seed.duration, seed.activity)
  }

  /** `cs` covers [from, to) without gaps or overlaps, each chunk non-empty. */
  predicate Tiles(cs: seq<Interval>, from: int, to: int)
    decreases |cs|
  {
    if |cs| == 0 then from == to
    else cs[0].start == from && cs[0].duration > 0 && Tiles(cs[1..], End(cs[0]), to)
  }

  function TotalDuration(cs: seq<Interval>): int {
    if |cs| == 0 then 0 else cs[0].duration + TotalDuration(cs[1..])
  }

  predicate AllActivity(cs: seq<Interval>, activity: Activity) {
    forall k :: 0 <= k < |cs| ==> cs[k].activity == activity
  }

  /** No chunk crosses an hour boundary. */
  predicate HourAligned(cs: seq<Interval>) {
    forall k :: 0 <= k < |cs| ==>
      cs[k].start >= 0 && 0 < cs[k].duration <= 60 && cs[k].start % 60 + cs[k].duration <= 60
  }

  lemma {:induction false} TilesSpan(cs: seq<Interval>, from: int, to: int)
    requires Tiles(cs, from, to)
    ensures from <= to && TotalDuration(cs) == to - from
    ensures forall k :: 0 <= k < |cs| ==> from <= cs[k].start && cs[k].duration > 0 && End(cs[k]) <= to
    ensures forall k :: 0 <= k < |cs| - 1 ==> cs[k + 1].start == End(cs[k])
    ensures |cs| > 0 ==> cs[0].start == from && End(cs[|cs| - 1]) == to
  {
    if |cs| > 0 {
      TilesSpan(cs[1..], End(cs[0]), to);
      assert forall k :: 1 <= k < |cs| ==> cs[k] == cs[1..][k - 1];
    }
  }

  lemma {:induction false} TilesAppend(a: seq<Interval>, b: seq<Interval>, x: int, y: int, z: int)
    requires Tiles(a, x, y) && Tiles(b, y, z)
    ensures Tiles(a + b, x, z)
  {
    if |a| > 0 {
      TilesAppend(a[1..], b, End(a[0]), y, z);
      assert (a + b)[1..] == a[1..] + b;
    } else {
      assert a + b == b;
    }
  }

  /** The chunks of one period tile it exactly and all keep its activity;
      a period that is not positive yields no chunks. */
  lemma {:induction false} HourChunksTile(start: int, remaining: int, activity: Activity)
    ensures remaining <= 0 ==> HourChunks(start, remaining, activity) == []
    ensures remaining > 0 ==> Tiles(HourChunks(start, remaining, activity), start, start + remaining)
    ensures AllActivity(HourChunks(start, remaining, activity), activity)
    decreases remaining
  {
    if remaining > 0 {
      var i := MinInt(60 - JsRemainder(start, 60), remaining);
      HourChunksTile(start + i, remaining - i, activity);
      var rest := HourChunks(start + i, remaining - i, activity);
      assert HourChunks(start, remaining, activity) == [Interval(start, i, activity)] + rest;
      assert ([Interval(start, i, activity)] + rest)[1..] == rest;
    }
  }

  /** From a non-negative start every chunk stays inside one hour. */
  lemma {:induction false} HourChunksAligned(start: int, remaining: int, activity: Activity)
    requires start >= 0
    ensures HourAligned(HourChunks(start, remaining, activity))
    decreases remaining
  {
    if remaining > 0 {
      var i := MinInt(60 - JsRemainder(start, 60), remaining);
      HourChunksAligned(start + i, remaining - i, activity);
      var rest := HourChunks(start + i, remaining - i, activity);
      var cs := [Interval(start, i, activity)] + rest;
      assert HourChunks(start, remaining, activity) == cs;
      forall k | 0 <= k < |cs|
        ensures cs[k].start >= 0 && 0 < cs[k].duration <= 60 && cs[k].start % 60 + cs[k].duration <= 60
      {
        if k > 0 { assert cs[k] == rest[k - 1]; }
      }
    }
  }

  /** The splitter's promises together: for a non-negative duration the chunks
      tile the period, keep its activity and stay within hours when the start
      is non-negative. */
  lemma HourIntervalsProperties(seed: Interval)
    ensures seed.duration <= 0 ==> HourIntervals(seed) == []
    ensures seed.duration >= 0 ==> Tiles(HourIntervals(seed), seed.start, End(seed))
    ensures seed.duration >= 0 ==> TotalDuration(HourIntervals(seed)) == seed.duration
    ensures AllActivity(HourIntervals(seed), seed.activity)
    ensures seed.start >= 0 ==> HourAligned(HourIntervals(seed))
  {
    HourChunksTile(seed.start, seed.duration, seed.activity);
    if seed.start >= 0 {
      HourChunksAligned(seed.start, seed.duration, seed.activity);
    }
    if seed.duration >= 0 {
      TilesSpan(HourIntervals(seed), seed.start, End(seed));
    }
  }

  /** splitIntoHourIntervalsGenerator: a loop that cuts off the part up to the next hour. */
  method SplitIntoHourIntervals(seed: Interval) returns (chunks: seq<Interval>)
    ensures chunks == HourIntervals(seed)
    ensures seed.duration >= 0 ==> Tiles(chunks, seed.start, End(seed))
    ensures AllActivity(chunks, seed.activity)
    ensures seed.start >= 0 ==> HourAligned(chunks)
  {
    var remaining := seed.duration;
    var start := seed.start;
    chunks := [];
    while remaining > 0
      invariant chunks + HourChunks(start, remaining, seed.activity) == HourIntervals(seed)
      decreases remaining
    {
      var i := MinInt(60 - JsRemainder(start, 60), remaining);
      chunks := chunks + [Interval(start, i, seed.activity)];
      start := start + i;
      remaining := remaining - i;
    }
    HourIntervalsProperties(seed);
  }

  lemma SplitExamples()
    ensures HourIntervals(Interval(0, 60, Charge)) == [Interval(0, 60, Charge)]
    ensures HourIntervals(Interval(0, 90, Charge)) == [Interval(0, 60, Charge), Interval(60, 30, Charge)]
    ensures HourIntervals(Interval(30, 60, Charge)) == [Interval(30, 30, Charge), Interval(60, 30, Charge)]
    ensures HourIntervals(Interval(30, 120, Charge)) ==
              [Interval(30, 30, Charge), Interval(60, 60, Charge), Interval(120, 30, Charge)]
  {
    assert HourChunks(120, 30, Charge) == [Interval(120, 30, Charge)];
    assert HourChunks(60, 90, Charge) == [Interval(60, 60, Charge), Interval(120, 30, Charge)];
  }

  // ---------------------------------------------------------------------
  // Gap filling, src/fitness.js:21-55
  // ---------------------------------------------------------------------

  /** calculateNormalPeriod: the idle period from the end of g1 to nextStart. */
  function NormalPeriod(g1: Interval, nextStart: int): (g: Interval)
    ensures g.start == End(g1) && End(g) == nextStart && g.activity == Idle
  {
    Interval(End(g1), nextStart - End(g1), Idle)
  }

  /** `{ start: 0, duration: 0 }`, the stand-in before the first period. */
  const Origin := Interval(0, 0, Idle)

  /** p[i - 1] ?? { start: 0, duration: 0 } */
  function Predecessor(p: seq<Interval>, i: nat): Interval
    requires i <= |p|
  {
    if i == 0 then Origin else p[i - 1]
  }

  /** What the generator has yielded after the first n iterations of its loop. */
  function FilledPrefix(p: seq<Interval>, n: nat): seq<Interval>
    requires n <= |p|
  {
    if n == 0 then []
    else FilledPrefix(p, n - 1) + HourIntervals(NormalPeriod(Predecessor(p, n - 1), p[n - 1].start))
         + HourIntervals(p[n - 1])
  }

  /** Everything fillInNormalPeriodsGenerator yields. */
  function FilledTimeline(totalDuration: int, p: seq<Interval>): seq<Interval> {
    FilledPrefix(p, |p|) + HourIntervals(NormalPeriod(Predecessor(p, |p|), totalDuration))
  }

  /** fillInNormalPeriodsGenerator as a loop over the periods. */
  method FillInNormalPeriods(totalDuration: int, p: seq<Interval>) returns (out: seq<Interval>)
    ensures out == FilledTimeline(totalDuration, p)
    ensures Ordered(p, totalDuration) ==> Tiles(out, 0, totalDuration) && HourAligned(out)
  {
    out := [];
    for i := 0 to |p|
      invariant out == FilledPrefix(p, i)
    {
      var gap := SplitIntoHourIntervals(NormalPeriod(Predecessor(p, i), p[i].start));
      var own := SplitIntoHourIntervals(p[i]);
      out := out + gap + own;
    }
    var tail := SplitIntoHourIntervals(NormalPeriod(Predecessor(p, |p|), totalDuration));
    out := out + tail;
    if Ordered(p, totalDuration) {
      FilledTimelineTiles(totalDuration, p);
      FilledTimelineAligned(totalDuration, p);
    }
  }

  /** The periods are sorted and do not overlap, none is negative, the first
      starts at or after 0 and the last ends by the end of the horizon. */
  predicate Ordered(p: seq<Interval>, totalDuration: int) {
    (forall k :: 0 <= k < |p| ==> p[k].duration >= 0) &&
    (|p| > 0 ==> p[0].start >= 0) &&
    (forall k :: 0 < k < |p| ==> End(p[k - 1]) <= p[k].start) &&
    End(Predecessor(p, |p|)) <= totalDuration
  }

  lemma {:induction false} OrderedChain(p: seq<Interval>, totalDuration: int, j: nat, k: nat)
    requires Ordered(p, totalDuration) && j < k < |p|
    ensures End(p[j]) <= p[k].start
    decreases k - j
  {
    if j + 1 < k {
      OrderedChain(p, totalDuration, j + 1, k);
    }
  }

  /** Under Ordered each gap before a period is non-negative and starts at or after 0. */
  lemma GapBefore(p: seq<Interval>, totalDuration: int, n: nat)
    requires Ordered(p, totalDuration) && 0 < n <= |p|
    ensures End(Predecessor(p, n - 1)) <= p[n - 1].start
    ensures 0 <= p[n - 1].start
  {
    if n > 1 {
      OrderedChain(p, totalDuration, 0, n - 1);
    }
  }

  lemma {:induction false} FilledPrefixTiles(p: seq<Interval>, totalDuration: int, n: nat)
    requires Ordered(p, totalDuration) && n <= |p|
    ensures Tiles(FilledPrefix(p, n), 0, End(Predecessor(p, n)))
  {
    if n > 0 {
      FilledPrefixTiles(p, totalDuration, n - 1);
      GapBefore(p, totalDuration, n);
      var last := p[n - 1];
      var before := FilledPrefix(p, n - 1);
      var gapSeed := NormalPeriod(Predecessor(p, n - 1), last.start);
      var gap := HourIntervals(gapSeed);
      var own := HourIntervals(last);
      PieceTiles(gapSeed);
      PieceTiles(last);
      TilesAppend(before, gap, 0, gapSeed.start, last.start);
      TilesAppend(before + gap, own, 0, last.start, End(last));
    }
  }

  /** The hourly pieces of one non-negative interval tile it. */
  lemma PieceTiles(seed: Interval)
    requires seed.duration >= 0
    ensures Tiles(HourIntervals(seed), seed.start, End(seed))
  {
    HourChunksTile(seed.start, seed.duration, seed.activity);
  }

  lemma {:induction false} FilledPrefixAligned(p: seq<Interval>, totalDuration: int, n: nat)
    requires Ordered(p, totalDuration) && n <= |p|
    ensures HourAligned(FilledPrefix(p, n))
    ensures 0 <= End(Predecessor(p, n))
  {
    if n > 0 {
      FilledPrefixAligned(p, totalDuration, n - 1);
      GapBefore(p, totalDuration, n);
      var last := p[n - 1];
      var before := FilledPrefix(p, n - 1);
      var gapSeed := NormalPeriod(Predecessor(p, n - 1), last.start);
      HourChunksAligned(gapSeed.start, gapSeed.duration, Idle);
      HourChunksAligned(last.start, last.duration, last.activity);
      AlignedAppend(before, HourIntervals(gapSeed));
      AlignedAppend(before + HourIntervals(gapSeed), HourIntervals(last));
    }
  }

  lemma AlignedAppend(a: seq<Interval>, b: seq<Interval>)
    requires HourAligned(a) && HourAligned(b)
    ensures HourAligned(a + b)
  {
    forall k | 0 <= k < |a + b| ensures (a + b)[k] == if k < |a| then a[k] else b[k - |a|] { }
  }

  /** Gap filling yields a gapless timeline from 0 to the end of the horizon, in whole-hour pieces. */
  lemma FilledTimelineTiles(totalDuration: int, p: seq<Interval>)
    requires Ordered(p, totalDuration)
    ensures Tiles(FilledTimeline(totalDuration, p), 0, totalDuration)
    ensures TotalDuration(FilledTimeline(totalDuration, p)) == totalDuration
  {
    var prefix := FilledPrefix(p, |p|);
    var tailSeed := NormalPeriod(Predecessor(p, |p|), totalDuration);
    var tail := HourIntervals(tailSeed);
    FilledPrefixTiles(p, totalDuration, |p|);
    HourChunksTile(tailSeed.start, tailSeed.duration, Idle);
    TilesAppend(prefix, tail, 0, End(Predecessor(p, |p|)), totalDuration);
    TilesSpan(FilledTimeline(totalDuration, p), 0, totalDuration);
  }

  /** ... and no chunk of it crosses an hour boundary. */
  lemma FilledTimelineAligned(totalDuration: int, p: seq<Interval>)
    requires Ordered(p, totalDuration)
    ensures HourAligned(FilledTimeline(totalDuration, p))
  {
    var tailSeed := NormalPeriod(Predecessor(p, |p|), totalDuration);
    FilledPrefixAligned(p, totalDuration, |p|);
    HourChunksAligned(tailSeed.start, tailSeed.duration, Idle);
    AlignedAppend(FilledPrefix(p, |p|), HourIntervals(tailSeed));
  }

  /** The activity of the first interval of `cs` that covers minute t. */
  function ActivityAt(cs: seq<Interval>, t: int): Option<Activity> {
    if |cs| == 0 then None
    else if cs[0].start <= t < End(cs[0]) then Some(cs[0].activity)
    else ActivityAt(cs[1..], t)
  }

  lemma {:induction false} ActivityAtAppend(a: seq<Interval>, b: seq<Interval>, t: int)
    ensures ActivityAt(a + b, t) == if ActivityAt(a, t).Some? then ActivityAt(a, t) else ActivityAt(b, t)
  {
    if |a| == 0 {
      assert a + b == b;
    } else {
      ActivityAtAppend(a[1..], b, t);
      assert (a + b)[1..] == a[1..] + b;
    }
  }

  lemma {:induction false} ActivityAtNone(cs: seq<Interval>, t: int)
    requires forall k :: 0 <= k < |cs| ==> !(cs[k].start <= t < End(cs[k]))
    ensures ActivityAt(cs, t) == None
  {
    if |cs| > 0 {
      ActivityAtNone(cs[1..], t);
    }
  }

  lemma {:induction false} HourChunksActivity(start: int, remaining: int, activity: Activity, t: int)
    ensures ActivityAt(HourChunks(start, remaining, activity), t) ==
            if start <= t < start + remaining then Some(activity) else None
    decreases remaining
  {
    if remaining > 0 {
      var i := MinInt(60 - JsRemainder(start, 60), remaining);
      HourChunksActivity(start + i, remaining - i, activity, t);
      var rest := HourChunks(start + i, remaining - i, activity);
      assert HourChunks(start, remaining, activity) == [Interval(start, i, activity)] + rest;
      assert ([Interval(start, i, activity)] + rest)[1..] == rest;
    }
  }

  lemma {:induction false} FilledPrefixActivity(p: seq<Interval>, totalDuration: int, n: nat, t: int)
    requires Ordered(p, totalDuration) && n <= |p| && 0 <= t
    ensures ActivityAt(FilledPrefix(p, n), t) ==
            if t < End(Predecessor(p, n)) then Some(ActivityAt(p[..n], t).GetOr(Idle)) else None
  {
    if n > 0 {
      FilledPrefixActivity(p, totalDuration, n - 1, t);
      GapBefore(p, totalDuration, n);
      var last := p[n - 1];
      var before := FilledPrefix(p, n - 1);
      var gapSeed := NormalPeriod(Predecessor(p, n - 1), last.start);
      var gap := HourIntervals(gapSeed);
      ActivityAtAppend(before + gap, HourIntervals(last), t);
      ActivityAtAppend(before, gap, t);
      PieceActivity(gapSeed, t);
      PieceActivity(last, t);
      PeriodsPrefixActivity(p, n, t);
      if t >= gapSeed.start {
        EarlierPeriodsMiss(p, totalDuration, n, t);
      }
    }
  }

  /** The hourly pieces of one interval cover exactly its minutes, with its activity. */
  lemma PieceActivity(seed: Interval, t: int)
    ensures ActivityAt(HourIntervals(seed), t) ==
            if seed.start <= t < End(seed) then Some(seed.activity) else None
  {
    HourChunksActivity(seed.start, seed.duration, seed.activity, t);
  }

  lemma PeriodsPrefixActivity(p: seq<Interval>, n: nat, t: int)
    requires 0 < n <= |p|
    ensures ActivityAt(p[..n], t) ==
            if ActivityAt(p[..n - 1], t).Some? then ActivityAt(p[..n - 1], t)
            else if p[n - 1].start <= t < End(p[n - 1]) then Some(p[n - 1].activity) else None
  {
    assert p[..n] == p[..n - 1] + [p[n - 1]];
    ActivityAtAppend(p[..n - 1], [p[n - 1]], t);
    assert [p[n - 1]][1..] == [];
  }

  /** A minute at or after the end of period n - 2 lies in none of the first n - 1 periods. */
  lemma EarlierPeriodsMiss(p: seq<Interval>, totalDuration: int, n: nat, t: int)
    requires Ordered(p, totalDuration) && 0 < n <= |p|
    requires t >= End(Predecessor(p, n - 1))
    ensures ActivityAt(p[..n - 1], t) == None
  {
    var q := p[..n - 1];
    forall k | 0 <= k < |q| ensures !(q[k].start <= t < End(q[k])) {
      if k < n - 2 { OrderedChain(p, totalDuration, k, n - 2); }
    }
    ActivityAtNone(q, t);
  }

  /** Every minute of the horizon is covered by a chunk whose activity is that
      of the period containing the minute, or Idle if it lies in a gap. */
  lemma FilledTimelineActivity(totalDuration: int, p: seq<Interval>, t: int)
    requires Ordered(p, totalDuration) && 0 <= t < totalDuration
    ensures ActivityAt(FilledTimeline(totalDuration, p), t) == Some(ActivityAt(p, t).GetOr(Idle))
  {
    FilledPrefixActivity(p, totalDuration, |p|, t);
    assert p[..|p|] == p;
    var tailSeed := NormalPeriod(Predecessor(p, |p|), totalDuration);
    ActivityAtAppend(FilledPrefix(p, |p|), HourIntervals(tailSeed), t);
    HourChunksActivity(tailSeed.start, tailSeed.duration, Idle, t);
    if t >= End(Predecessor(p, |p|)) {
      forall k | 0 <= k < |p| ensures !(p[k].start <= t < End(p[k])) {
        if k < |p| - 1 { OrderedChain(p, totalDuration, k, |p| - 1); }
      }
      ActivityAtNone(p, t);
    }
  }

  // ---------------------------------------------------------------------
  // Per-chunk scores, src/fitness.js:57-145
  // ---------------------------------------------------------------------

  /** The scorer's input: energies already scaled to the chunk's duration. */
  datatype ScoreProps = ScoreProps(importPrice: real, exportPrice: real,
                                   consumption: real, production: real,
                                   maxCharge: real, maxDischarge: real,
                                   excessPvEnergyUse: PvPolicy)

  /** [cost, charge]: money paid and energy put into (positive) or taken out of the battery. */
  datatype Score = Score(cost: real, charge: real)

  /** The scorer's inputs are physical: energies and battery limits are non-negative. */
  predicate Physical(p: ScoreProps) {
    p.consumption >= 0.0 && p.production >= 0.0 && p.maxCharge >= 0.0 && p.maxDischarge >= 0.0
  }

  function ConsumedFromProduction(p: ScoreProps): real {
    MinReal(p.consumption, p.production)
  }

  /** batteryChargeFromProduction under the surplus policy. */
  function SurplusToBattery(p: ScoreProps): real {
    if p.excessPvEnergyUse == ChargeBattery
    then MinReal(p.production - ConsumedFromProduction(p), p.maxCharge)
    else 0.0
  }

  /** calculateDischargeScore: production first, then the battery, then the grid. */
  function DischargeScore(p: ScoreProps): Score
  {
    var consumedFromProduction := ConsumedFromProduction(p);
    var batteryChargeFromProduction := SurplusToBattery(p);
    var consumedFromBattery := MinReal(p.consumption - consumedFromProduction, p.maxDischarge);
    var soldFromProduction := p.production - consumedFromProduction - batteryChargeFromProduction;
    var consumedFromGrid := p.consumption - consumedFromProduction - consumedFromBattery;
    Score(Scaled(consumedFromGrid, p.importPrice) - Scaled(soldFromProduction, p.exportPrice),
          batteryChargeFromProduction - consumedFromBattery)
  }

  /** calculateNormalScore: production first, then the grid; the battery only takes surplus. */
  function NormalScore(p: ScoreProps): Score
  {
    var consumedFromProduction := ConsumedFromProduction(p);
    var batteryChargeFromProduction := SurplusToBattery(p);
    var soldFromProduction := p.production - consumedFromProduction - batteryChargeFromProduction;
    var consumedFromGrid := p.consumption - consumedFromProduction;
    Score(Scaled(consumedFromGrid, p.importPrice) - Scaled(soldFromProduction, p.exportPrice),
          batteryChargeFromProduction)
  }

  /** calculateChargeScore: the battery takes maxCharge, from surplus production first, then the grid. */
  function ChargeScore(p: ScoreProps): Score
  {
    var consumedFromProduction := ConsumedFromProduction(p);
    var batteryChargeFromProduction := MinReal(p.production - consumedFromProduction, p.maxCharge);
    var soldFromProduction := p.production - consumedFromProduction - batteryChargeFromProduction;
    var consumedFromGrid := p.consumption - consumedFromProduction;
    var chargedFromGrid := p.maxCharge - batteryChargeFromProduction;
    Score(Scaled(consumedFromGrid + chargedFromGrid, p.importPrice) - Scaled(soldFromProduction, p.exportPrice),
          batteryChargeFromProduction + chargedFromGrid)
  }

  /** With an empty battery discharging behaves exactly like staying idle. */
  lemma DischargeEmptyIsNormal(p: ScoreProps)
    requires p.maxDischarge == 0.0
    ensures DischargeScore(p) == NormalScore(p)
  {
    assert MinReal(p.consumption - ConsumedFromProduction(p), 0.0) == 0.0;
  }

  /** calculatePeriodScore: -1 discharges, 1 charges, anything else is normal. */
  function PeriodScore(activity: Activity, p: ScoreProps): Score
  {
    match activity
    case Discharge => DischargeScore(p)
    case Charge => ChargeScore(p)
    case Idle => NormalScore(p)
  }

  /** The energy bought from the grid: the cost at import price 1 and export price 0. */
  function GridImport(activity: Activity, p: ScoreProps): real {
    PeriodScore(activity, p.(importPrice := 1.0, exportPrice := 0.0)).cost
  }

  /** The energy sold to the grid: minus the cost at import price 0 and export price 1. */
  function GridExport(activity: Activity, p: ScoreProps): real {
    -PeriodScore(activity, p.(importPrice := 0.0, exportPrice := 1.0)).cost
  }

  /** Every score is the price of a balanced exchange with the grid: the cost is
      the energy bought times the import price less the energy sold times the
      export price, production plus purchases equals consumption plus battery
      charge plus sales, and with physical inputs nothing is bought or sold in
      negative amounts. */
  lemma ScoreIsMeteredExchange(activity: Activity, p: ScoreProps)
    ensures PeriodScore(activity, p).cost ==
            Scaled(GridImport(activity, p), p.importPrice) - Scaled(GridExport(activity, p), p.exportPrice)
    ensures p.production + GridImport(activity, p) ==
            p.consumption + PeriodScore(activity, p).charge + GridExport(activity, p)
    ensures Physical(p) ==> GridImport(activity, p) >= 0.0 && GridExport(activity, p) >= 0.0
  {
    var buy := p.(importPrice := 1.0, exportPrice := 0.0);
    var sell := p.(importPrice := 0.0, exportPrice := 1.0);
    assert ConsumedFromProduction(buy) == ConsumedFromProduction(p) == ConsumedFromProduction(sell);
    assert SurplusToBattery(buy) == SurplusToBattery(p) == SurplusToBattery(sell);
    forall x: real ensures Scaled(x, 1.0) == x && Scaled(x, 0.0) == 0.0 {
      ScaledUnit(x);
    }
  }

  /** The battery flow of every chunk respects the limits it is given: charging
      fills exactly maxCharge, discharging takes at most maxDischarge and with
      FeedToGrid never charges, an idle chunk touches the battery only to store
      surplus production under ChargeBattery. */
  lemma BatteryFlowWithinLimits(activity: Activity, p: ScoreProps)
    ensures Physical(p) ==> -p.maxDischarge <= PeriodScore(activity, p).charge <= p.maxCharge
    ensures activity == Charge ==> PeriodScore(activity, p).charge == p.maxCharge
    ensures activity == Discharge && p.excessPvEnergyUse == FeedToGrid && p.maxDischarge >= 0.0 ==>
              -p.maxDischarge <= PeriodScore(activity, p).charge <= 0.0
    ensures activity == Idle && p.excessPvEnergyUse == FeedToGrid ==> PeriodScore(activity, p).charge == 0.0
    ensures activity == Idle && Physical(p) ==> PeriodScore(activity, p).charge >= 0.0
  {
  }

  function MaxReal(a: real, b: real): real {
    if a >= b then a else b
  }

  /** Feeding surplus to the grid, an idle chunk leaves the battery alone and
      pays for the shortfall of production less what it earns on the surplus. */
  lemma NormalFeedToGrid(p: ScoreProps)
    requires p.excessPvEnergyUse == FeedToGrid
    ensures NormalScore(p).charge == 0.0
    ensures NormalScore(p).cost ==
            Scaled(MaxReal(p.consumption - p.production, 0.0), p.importPrice) -
            Scaled(MaxReal(p.production - p.consumption, 0.0), p.exportPrice)
  {
  }

  /** Discharging covers consumption from production, then from the battery
      (at most maxDischarge), then from the grid, which supplies exactly what
      the other two leave over. */
  lemma DischargeEnergyBalance(p: ScoreProps)
    ensures var fromBattery := SurplusToBattery(p) - DischargeScore(p).charge;
            ConsumedFromProduction(p) + fromBattery + GridImport(Discharge, p) == p.consumption
    ensures var fromBattery := SurplusToBattery(p) - DischargeScore(p).charge;
            Physical(p) ==> 0.0 <= fromBattery <= p.maxDischarge
    ensures Physical(p) ==>
              GridImport(Discharge, p) == MaxReal(p.consumption - p.production - p.maxDischarge, 0.0)
  {
    var buy := p.(importPrice := 1.0, exportPrice := 0.0);
    assert ConsumedFromProduction(buy) == ConsumedFromProduction(p);
    assert SurplusToBattery(buy) == SurplusToBattery(p);
    ScaledUnit(p.consumption - ConsumedFromProduction(p) - MinReal(p.consumption - ConsumedFromProduction(p), p.maxDischarge));
    ScaledUnit(p.production - ConsumedFromProduction(p) - SurplusToBattery(p));
  }

  // One lemma per example: the solver settles each in isolation.

  lemma DischargeFullBattery()
    ensures DischargeScore(ScoreProps(2.0, 2.0, 1.0, 0.0, 0.0, 1.0, FeedToGrid)) == Score(0.0, -1.0)
  {
  }

  lemma DischargeEmptyBattery()
    ensures DischargeScore(ScoreProps(2.0, 2.0, 1.0, 0.0, 0.0, 0.0, FeedToGrid)) == Score(2.0, 0.0)
  {
  }

  lemma DischargeAlmostEmptyBattery()
    ensures DischargeScore(ScoreProps(2.0, 2.0, 1.0, 0.0, 0.0, 0.5, FeedToGrid)) == Score(1.0, -0.5)
  {
  }

  lemma DischargeEqualProduction()
    ensures DischargeScore(ScoreProps(2.0, 2.0, 1.0, 1.0, 0.0, 1.0, FeedToGrid)) == Score(0.0, 0.0)
  {
  }

  lemma DischargeDoubleProduction()
    ensures DischargeScore(ScoreProps(2.0, 2.0, 1.0, 2.0, 0.0, 1.0, FeedToGrid)) == Score(-2.0, 0.0)
  {
  }

  lemma DischargeDoubleProductionChargePreference()
    ensures DischargeScore(ScoreProps(2.0, 2.0, 1.0, 2.0, 1.0, 1.0, ChargeBattery)) == Score(0.0, 1.0)
  {
  }

  lemma ChargeFullBattery()
    ensures ChargeScore(ScoreProps(2.0, 2.0, 1.0, 0.0, 0.0, 0.0, FeedToGrid)) == Score(2.0, 0.0)
  {
  }

  lemma ChargeEmptyBattery()
    ensures ChargeScore(ScoreProps(2.0, 2.0, 1.0, 0.0, 1.0, 0.0, FeedToGrid)) == Score(4.0, 1.0)
  {
  }

  lemma ChargeAlmostFullBattery()
    ensures ChargeScore(ScoreProps(2.0, 2.0, 1.0, 0.0, 0.5, 0.0, FeedToGrid)) == Score(3.0, 0.5)
  {
  }

  lemma ChargeEqualProduction()
    ensures ChargeScore(ScoreProps(2.0, 2.0, 1.0, 1.0, 1.0, 0.0, FeedToGrid)) == Score(2.0, 1.0)
  {
  }

  lemma ChargeDoubleProduction()
    ensures ChargeScore(ScoreProps(2.0, 2.0, 1.0, 2.0, 1.0, 0.0, FeedToGrid)) == Score(0.0, 1.0)
  {
  }

  lemma ChargeTripleProductionChargePreference()
    ensures ChargeScore(ScoreProps(2.0, 2.0, 1.0, 3.0, 1.0, 0.0, ChargeBattery)) == Score(-2.0, 1.0)
  {
  }

  lemma NormalNoProduction()
    ensures NormalScore(ScoreProps(2.0, 2.0, 1.0, 0.0, 1.0, 0.0, FeedToGrid)) == Score(2.0, 0.0)
  {
  }

  lemma NormalEqualProduction()
    ensures NormalScore(ScoreProps(2.0, 2.0, 1.0, 1.0, 1.0, 0.0, FeedToGrid)) == Score(0.0, 0.0)
  {
  }

  lemma NormalDoubleProductionChargePreference()
    ensures NormalScore(ScoreProps(2.0, 2.0, 1.0, 2.0, 1.0, 0.0, ChargeBattery)) == Score(0.0, 1.0)
  {
  }

  lemma NormalDoubleProductionFeedToGrid()
    ensures NormalScore(ScoreProps(2.0, 2.0, 1.0, 2.0, 1.0, 0.0, FeedToGrid)) == Score(-2.0, 0.0)
  {
  }

  /** The discharge examples of the source's tests (importPrice and exportPrice 2, consumption 1);
      a field a test leaves out is 0 here and unused by the formula. */
  lemma DischargeScoreExamples()
    ensures DischargeScore(ScoreProps(2.0, 2.0, 1.0, 0.0, 0.0, 1.0, FeedToGrid)) == Score(0.0, -1.0)
    ensures DischargeScore(ScoreProps(2.0, 2.0, 1.0, 0.0, 0.0, 0.0, FeedToGrid)) == Score(2.0, 0.0)
    ensures DischargeScore(ScoreProps(2.0, 2.0, 1.0, 0.0, 0.0, 0.5, FeedToGrid)) == Score(1.0, -0.5)
    ensures DischargeScore(ScoreProps(2.0, 2.0, 1.0, 1.0, 0.0, 1.0, FeedToGrid)) == Score(0.0, 0.0)
    ensures DischargeScore(ScoreProps(2.0, 2.0, 1.0, 2.0, 0.0, 1.0, FeedToGrid)) == Score(-2.0, 0.0)
    ensures DischargeScore(ScoreProps(2.0, 2.0, 1.0, 2.0, 1.0, 1.0, ChargeBattery)) == Score(0.0, 1.0)
  {
    DischargeFullBattery();
    DischargeEmptyBattery();
    DischargeAlmostEmptyBattery();
    DischargeEqualProduction();
    DischargeDoubleProduction();
    DischargeDoubleProductionChargePreference();
  }

  /** The charge examples of the source's tests. */
  lemma ChargeScoreExamples()
    ensures ChargeScore(ScoreProps(2.0, 2.0, 1.0, 0.0, 0.0, 0.0, FeedToGrid)) == Score(2.0, 0.0)
    ensures ChargeScore(ScoreProps(2.0, 2.0, 1.0, 0.0, 1.0, 0.0, FeedToGrid)) == Score(4.0, 1.0)
    ensures ChargeScore(ScoreProps(2.0, 2.0, 1.0, 0.0, 0.5, 0.0, FeedToGrid)) == Score(3.0, 0.5)
    ensures ChargeScore(ScoreProps(2.0, 2.0, 1.0, 1.0, 1.0, 0.0, FeedToGrid)) == Score(2.0, 1.0)
    ensures ChargeScore(ScoreProps(2.0, 2.0, 1.0, 2.0, 1.0, 0.0, FeedToGrid)) == Score(0.0, 1.0)
    ensures ChargeScore(ScoreProps(2.0, 2.0, 1.0, 3.0, 1.0, 0.0, ChargeBattery)) == Score(-2.0, 1.0)
  {
    ChargeFullBattery();
    ChargeEmptyBattery();
    ChargeAlmostFullBattery();
    ChargeEqualProduction();
    ChargeDoubleProduction();
    ChargeTripleProductionChargePreference();
  }

  /** The normal (idle) examples of the source's tests. */
  lemma NormalScoreExamples()
    ensures NormalScore(ScoreProps(2.0, 2.0, 1.0, 0.0, 1.0, 0.0, FeedToGrid)) == Score(2.0, 0.0)
    ensures NormalScore(ScoreProps(2.0, 2.0, 1.0, 1.0, 1.0, 0.0, FeedToGrid)) == Score(0.0, 0.0)
    ensures NormalScore(ScoreProps(2.0, 2.0, 1.0, 2.0, 1.0, 0.0, ChargeBattery)) == Score(0.0, 1.0)
    ensures NormalScore(ScoreProps(2.0, 2.0, 1.0, 2.0, 1.0, 0.0, FeedToGrid)) == Score(-2.0, 0.0)
  {
    NormalNoProduction();
    NormalEqualProduction();
    NormalDoubleProductionChargePreference();
    NormalDoubleProductionFeedToGrid();
  }

  // ---------------------------------------------------------------------
  // The fitness fold, src/fitness.js:147-182
  // ---------------------------------------------------------------------

  /** One hourly forecast record. */
  datatype Sample = Sample(importPrice: real, exportPrice: real, consumption: real, production: real)

  datatype FitnessProps = FitnessProps(totalDuration: int, input: seq<Sample>,
                                       batteryMaxEnergy: real, batteryMaxInputPower: real, soc: real)

  /** input[Math.floor(start / 60)] is undefined, so destructuring it throws. */
  datatype FitnessError = SampleOutOfRange(start: int)

  datatype FoldState = FoldState(score: real, currentCharge: real)

  /** The scorer's input for one chunk at the given battery level, or the missing sample:
      the clamps, the lookup of hour floor(start / 60) and the scaling to the chunk's hours. */
  function ChunkProps(props: FitnessProps, policy: PvPolicy, c: Interval, currentCharge: real): (r: Result<ScoreProps, FitnessError>)
    ensures r.Err? <==> !(0 <= c.start / 60 < |props.input|)
    ensures r.Err? ==> r.error == SampleOutOfRange(c.start)
    ensures r.Ok? ==>
              var sp := r.value;
              var s := props.input[c.start / 60];
              // maxCharge: the power limit, unless the room left in the battery is smaller
              sp.maxCharge <= props.batteryMaxInputPower &&
              currentCharge + sp.maxCharge <= props.batteryMaxEnergy &&
              (sp.maxCharge == props.batteryMaxInputPower || currentCharge + sp.maxCharge == props.batteryMaxEnergy) &&
              // maxDischarge: the power limit, unless the battery holds less
              sp.maxDischarge <= props.batteryMaxInputPower && sp.maxDischarge <= currentCharge &&
              (sp.maxDischarge == props.batteryMaxInputPower || sp.maxDischarge == currentCharge) &&
              // the hour's prices, and its energies pro rata for the chunk's minutes
              sp.importPrice == s.importPrice && sp.exportPrice == s.exportPrice &&
              sp.consumption == Scaled(s.consumption, c.duration as real / 60.0) &&
              sp.production == Scaled(s.production, c.duration as real / 60.0) &&
              sp.excessPvEnergyUse == policy
  {
    var hours := c.duration as real / 60.0;
    var maxCharge := MinReal(props.batteryMaxInputPower, props.batteryMaxEnergy - currentCharge);
    var maxDischarge := MinReal(props.batteryMaxInputPower, currentCharge);
    var index := c.start / 60;
    if index < 0 || index >= |props.input| then Err(SampleOutOfRange(c.start))
    else
      var s := props.input[index];
      Ok(ScoreProps(s.importPrice, s.exportPrice, Scaled(s.consumption, hours), Scaled(s.production, hours),
                    maxCharge, maxDischarge, policy))
  }

  /** The loop over the chunks: subtract each chunk's cost, add its charge to the battery. */
  function Fold(props: FitnessProps, policy: PvPolicy, cs: seq<Interval>, st: FoldState): Result<FoldState, FitnessError> {
    if |cs| == 0 then Ok(st)
    else
      match ChunkProps(props, policy, cs[0], st.currentCharge)
      case Err(e) => Err(e)
      case Ok(sp) =>
        var v := PeriodScore(cs[0].activity, sp);
        Fold(props, policy, cs[1..], FoldState(st.score - v.cost, st.currentCharge + v.charge))
  }

  function InitialState(props: FitnessProps): FoldState {
    FoldState(0.0, Scaled(props.soc, props.batteryMaxEnergy))
  }

  /** fitnessFunction(props)(phenotype): the score, or the error the lookup throws. */
  function FitnessValue(props: FitnessProps, periods: seq<Interval>, policy: PvPolicy): Result<real, FitnessError> {
    match Fold(props, policy, FilledTimeline(props.totalDuration, periods), InitialState(props))
    case Ok(st) => Ok(st.score)
    case Err(e) => Err(e)
  }

  method FitnessFunction(props: FitnessProps, periods: seq<Interval>, policy: PvPolicy)
    returns (result: Result<real, FitnessError>)
    ensures result == FitnessValue(props, periods, policy)
  {
    var score := 0.0;
    var currentCharge := Scaled(props.soc, props.batteryMaxEnergy);
    var cs := FillInNormalPeriods(props.totalDuration, periods);
    var i := 0;
    while i < |cs|
      invariant 0 <= i <= |cs|
      invariant Fold(props, policy, cs[i..], FoldState(score, currentCharge)) == Fold(props, policy, cs, InitialState(props))
    {
      var interval := cs[i];
      FoldStep(props, policy, cs, i, FoldState(score, currentCharge));
      var input := ChunkProps(props, policy, interval, currentCharge);
      if input.Err? {
        result := Err(input.error);
        return;
      }
      var v := PeriodScore(interval.activity, input.value);
      score := score - v.cost;
      currentCharge := currentCharge + v.charge;
      i := i + 1;
    }
    result := Ok(score);
  }

  /** The fold at chunk i: the chunk's error, or the fold of the rest from the updated state. */
  lemma FoldStep(props: FitnessProps, policy: PvPolicy, cs: seq<Interval>, i: nat, st: FoldState)
    requires i < |cs|
    ensures match ChunkProps(props, policy, cs[i], st.currentCharge)
            case Err(e) => Fold(props, policy, cs[i..], st) == Err(e)
            case Ok(sp) =>
              var v := PeriodScore(cs[i].activity, sp);
              Fold(props, policy, cs[i..], st) ==
                Fold(props, policy, cs[i + 1..], FoldState(st.score - v.cost, st.currentCharge + v.charge))
  {
    assert cs[i..][1..] == cs[i + 1..];
  }

  // ---------------------------------------------------------------------
  // The fitness examples of the source's tests, with the durations the
  // periods span up to the next start
  // ---------------------------------------------------------------------

  /** Five hours at import and export price 1, consumption 1 and no production. */
  const TestHour := Sample(1.0, 1.0, 1.0, 0.0)

  /** Capacity 1, power 1, an empty battery. */
  function TestProps(totalDuration: int): FitnessProps {
    FitnessProps(totalDuration, [TestHour, TestHour, TestHour, TestHour, TestHour], 1.0, 1.0, 0.0)
  }


  /** A period that starts where its predecessor ends adds no idle filler: the
      prefix grows by the period's own hourly pieces. */
  lemma ContiguousStep(p: seq<Interval>, n: nat, before: seq<Interval>, pieces: seq<Interval>)
    requires 0 < n <= |p| && p[n - 1].start == End(Predecessor(p, n - 1))
    requires FilledPrefix(p, n - 1) == before && HourIntervals(p[n - 1]) == pieces
    ensures FilledPrefix(p, n) == before + pieces
  {
    var filler := NormalPeriod(Predecessor(p, n - 1), p[n - 1].start);
    assert filler.duration == 0;
    assert HourIntervals(filler) == [];
    assert FilledPrefix(p, n) == before + [] + pieces;
    assert before + [] == before;
  }

  /** Every period cut into its hourly pieces, one after the other. */
  function SplitAll(p: seq<Interval>): seq<Interval> {
    if |p| == 0 then [] else SplitAll(p[..|p| - 1]) + HourIntervals(p[|p| - 1])
  }

  /** Each of the first n periods starts where the previous one ends, the first at 0. */
  predicate ContiguousUpTo(p: seq<Interval>, n: nat)
    requires n <= |p|
  {
    forall i {:trigger Predecessor(p, i)} :: 0 <= i < n ==> p[i].start == End(Predecessor(p, i))
  }

  /** Contiguous periods get no filler: the prefix is just their hourly pieces. */
  lemma {:induction false} ContiguousPrefix(p: seq<Interval>, n: nat)
    requires n <= |p| && ContiguousUpTo(p, n)
    ensures FilledPrefix(p, n) == SplitAll(p[..n])
  {
    if n > 0 {
      ContiguousPrefix(p, n - 1);
      assert p[..n][..n - 1] == p[..n - 1];
      ContiguousStep(p, n, SplitAll(p[..n - 1]), HourIntervals(p[n - 1]));
    }
  }

  /** A schedule whose last period ends at the total duration gets no idle tail. */
  lemma ContiguousTail(totalDuration: int, p: seq<Interval>)
    requires |p| > 0 && End(p[|p| - 1]) == totalDuration
    ensures FilledTimeline(totalDuration, p) == FilledPrefix(p, |p|)
  {
    assert HourIntervals(NormalPeriod(Predecessor(p, |p|), totalDuration)) == [];
  }

  /** The filled prefix depends only on the periods it has consumed. */
  lemma {:induction false} FilledPrefixTake(p: seq<Interval>, m: nat, n: nat)
    requires n <= m <= |p|
    ensures FilledPrefix(p[..m], n) == FilledPrefix(p, n)
  {
    if n > 0 {
      FilledPrefixTake(p, m, n - 1);
      assert p[..m][n - 1] == p[n - 1];
      assert Predecessor(p[..m], n - 1) == Predecessor(p, n - 1);
    }
  }

  /** Contiguous periods ending at the total duration: the timeline is just their hourly pieces. */
  lemma ContiguousTimeline(totalDuration: int, p: seq<Interval>)
    requires |p| > 0 && End(p[|p| - 1]) == totalDuration && ContiguousUpTo(p, |p|)
    ensures FilledTimeline(totalDuration, p) == SplitAll(p)
  {
    ContiguousPrefix(p, |p|);
    assert p[..|p|] == p;
    ContiguousTail(totalDuration, p);
  }

  /** The four periods of the source's fitness tests, stated element by element. */
  predicate IsTestPeriods(p: seq<Interval>) {
    |p| == 4 && p[0] == Interval(0, 30, Idle) && p[1] == Interval(30, 60, Charge)
    && p[2] == Interval(90, 30, Discharge) && p[3] == Interval(120, 60, Idle)
  }

  lemma TestSplit(p: seq<Interval>)
    requires IsTestPeriods(p)
    ensures SplitAll(p) == [Interval(0, 30, Idle), Interval(30, 30, Charge), Interval(60, 30, Charge),
               Interval(90, 30, Discharge), Interval(120, 60, Idle)]
    ensures SplitAll(p[..3]) ==
              [Interval(0, 30, Idle), Interval(30, 30, Charge), Interval(60, 30, Charge), Interval(90, 30, Discharge)]
  {
    assert HourChunks(60, 30, Charge) == [Interval(60, 30, Charge)];
    assert p[..1][..0] == [] && p[..2][..1] == p[..1] && p[..3][..2] == p[..2] && p[..4][..3] == p[..3] && p[..4] == p;
    assert SplitAll(p[..1]) == [Interval(0, 30, Idle)];
    assert SplitAll(p[..2]) == [Interval(0, 30, Idle), Interval(30, 30, Charge), Interval(60, 30, Charge)];
    assert SplitAll(p[..3]) == [Interval(0, 30, Idle), Interval(30, 30, Charge), Interval(60, 30, Charge), Interval(90, 30, Discharge)];
  }

  lemma TestContiguous(p: seq<Interval>)
    requires 3 <= |p| <= 4 && p[0] == Interval(0, 30, Idle) && p[1] == Interval(30, 60, Charge)
    requires p[2] == Interval(90, 30, Discharge) && (|p| == 4 ==> p[3] == Interval(120, 60, Idle))
    ensures ContiguousUpTo(p, |p|)
  {
    assert Predecessor(p, 0) == Origin && Predecessor(p, 1) == p[0] && Predecessor(p, 2) == p[1];
    assert |p| == 4 ==> Predecessor(p, 3) == p[2];
  }

  /** A contiguous schedule whose hourly pieces are known has those pieces as its whole timeline. */
  lemma TimelineOfPieces(totalDuration: int, p: seq<Interval>, pieces: seq<Interval>)
    requires |p| > 0 && End(p[|p| - 1]) == totalDuration && ContiguousUpTo(p, |p|) && SplitAll(p) == pieces
    ensures FilledTimeline(totalDuration, p) == pieces
  {
    ContiguousTimeline(totalDuration, p);
  }

  lemma TestTimeline(p: seq<Interval>)
    requires IsTestPeriods(p)
    ensures FilledTimeline(180, p) ==
              [Interval(0, 30, Idle), Interval(30, 30, Charge), Interval(60, 30, Charge),
               Interval(90, 30, Discharge), Interval(120, 60, Idle)]
    ensures FilledTimeline(120, p[..3]) ==
              [Interval(0, 30, Idle), Interval(30, 30, Charge), Interval(60, 30, Charge), Interval(90, 30, Discharge)]
  {
    TestSplit(p);
    TestContiguous(p);
    TestContiguous(p[..3]);
    TimelineOfPieces(180, p, [Interval(0, 30, Idle), Interval(30, 30, Charge), Interval(60, 30, Charge),
               Interval(90, 30, Discharge), Interval(120, 60, Idle)]);
    TimelineOfPieces(120, p[..3],
              [Interval(0, 30, Idle), Interval(30, 30, Charge), Interval(60, 30, Charge), Interval(90, 30, Discharge)]);
  }

  /** One chunk of the fold, peeled off the front. */
  lemma FoldCons(props: FitnessProps, policy: PvPolicy, c: Interval, rest: seq<Interval>, st: FoldState, v: Score)
    requires ChunkProps(props, policy, c, st.currentCharge).Ok?
    requires PeriodScore(c.activity, ChunkProps(props, policy, c, st.currentCharge).value) == v
    ensures Fold(props, policy, [c] + rest, st) == Fold(props, policy, rest, FoldState(st.score - v.cost, st.currentCharge + v.charge))
  {
    assert ([c] + rest)[1..] == rest;
  }

  /** Without production every kilowatt-hour consumed or charged is bought from
      the grid, and discharging covers as much of the consumption as it can. */
  lemma NoProductionScores(p: ScoreProps)
    requires p.production == 0.0 && p.consumption >= 0.0 && p.maxCharge >= 0.0
    ensures NormalScore(p) == Score(Scaled(p.consumption, p.importPrice), 0.0)
    ensures ChargeScore(p) == Score(Scaled(p.consumption + p.maxCharge, p.importPrice), p.maxCharge)
    ensures DischargeScore(p) ==
              Score(Scaled(p.consumption - MinReal(p.consumption, p.maxDischarge), p.importPrice),
                    -MinReal(p.consumption, p.maxDischarge))
  {
    assert ConsumedFromProduction(p) == 0.0 && SurplusToBattery(p) == 0.0;
  }

  /** In the example a chunk of d minutes inside the five hours consumes d/60,
      may charge up to the room left and discharge up to the level. */
  lemma TestChunkInput(T: int, c: Interval, level: real)
    requires 0 <= c.start < 300 && c.duration >= 0 && 0.0 <= level <= 1.0
    ensures ChunkProps(TestProps(T), FeedToGrid, c, level) ==
            Ok(ScoreProps(1.0, 1.0, c.duration as real / 60.0, 0.0, 1.0 - level, level, FeedToGrid))
  {
    ScaledUnit(c.duration as real / 60.0);
    assert Scaled(1.0, c.duration as real / 60.0) == c.duration as real / 60.0;
  }

  /** An idle chunk of the example buys its consumption and leaves the battery alone. */
  lemma TestIdleChunk(T: int, c: Interval, level: real, v: Score)
    requires c.activity == Idle && 0 <= c.start < 300 && c.duration >= 0 && 0.0 <= level <= 1.0
    requires v == Score(c.duration as real / 60.0, 0.0)
    ensures exists sp :: ChunkProps(TestProps(T), FeedToGrid, c, level) == Ok(sp) &&
              PeriodScore(c.activity, sp) == v
  {
    TestChunkInput(T, c, level);
    var sp := ScoreProps(1.0, 1.0, c.duration as real / 60.0, 0.0, 1.0 - level, level, FeedToGrid);
    NoProductionScores(sp);
    ScaledUnit(c.duration as real / 60.0);
    assert PeriodScore(c.activity, sp) == Score(c.duration as real / 60.0, 0.0);
  }

  /** A charging chunk of the example also buys the room left in the battery. */
  lemma TestChargeChunk(T: int, c: Interval, level: real, v: Score)
    requires c.activity == Charge && 0 <= c.start < 300 && c.duration >= 0 && 0.0 <= level <= 1.0
    requires v == Score(c.duration as real / 60.0 + (1.0 - level), 1.0 - level)
    ensures exists sp :: ChunkProps(TestProps(T), FeedToGrid, c, level) == Ok(sp) &&
              PeriodScore(c.activity, sp) == v
  {
    TestChunkInput(T, c, level);
    var sp := ScoreProps(1.0, 1.0, c.duration as real / 60.0, 0.0, 1.0 - level, level, FeedToGrid);
    NoProductionScores(sp);
    ScaledUnit(c.duration as real / 60.0 + (1.0 - level));
    assert PeriodScore(c.activity, sp) == Score(c.duration as real / 60.0 + (1.0 - level), 1.0 - level);
  }

  /** A discharging chunk of the example covers as much of its consumption as the level allows. */
  lemma TestDischargeChunk(T: int, c: Interval, level: real, v: Score)
    requires c.activity == Discharge && 0 <= c.start < 300 && c.duration >= 0 && 0.0 <= level <= 1.0
    requires v == Score(c.duration as real / 60.0 - MinReal(c.duration as real / 60.0, level),
                        -MinReal(c.duration as real / 60.0, level))
    ensures exists sp :: ChunkProps(TestProps(T), FeedToGrid, c, level) == Ok(sp) && PeriodScore(c.activity, sp) == v
  {
    TestChunkInput(T, c, level);
    var sp := ScoreProps(1.0, 1.0, c.duration as real / 60.0, 0.0, 1.0 - level, level, FeedToGrid);
    NoProductionScores(sp);
    ScaledUnit(c.duration as real / 60.0 - MinReal(c.duration as real / 60.0, level));
    assert PeriodScore(c.activity, sp) ==
           Score(c.duration as real / 60.0 - MinReal(c.duration as real / 60.0, level),
                 -MinReal(c.duration as real / 60.0, level));
  }

  /** A chunk whose input is known and whose score is v moves the fold by v. */
  lemma FoldChunk(props: FitnessProps, c: Interval, rest: seq<Interval>, st: FoldState, v: Score)
    requires exists sp :: ChunkProps(props, FeedToGrid, c, st.currentCharge) == Ok(sp) && PeriodScore(c.activity, sp) == v
    ensures Fold(props, FeedToGrid, [c] + rest, st) ==
            Fold(props, FeedToGrid, rest, FoldState(st.score - v.cost, st.currentCharge + v.charge))
  {
    var sp :| ChunkProps(props, FeedToGrid, c, st.currentCharge) == Ok(sp) && PeriodScore(c.activity, sp) == v;
    FoldCons(props, FeedToGrid, c, rest, st, v);
  }

  /** Folding four chunks whose inputs are known and whose scores are those of
      the example, from an empty battery, leaves score -2.5 and level 0.5 for
      whatever follows. */
  lemma FoldFourChunks(props: FitnessProps, c1: Interval, c2: Interval, c3: Interval, c4: Interval, rest: seq<Interval>)
    requires exists s1 :: ChunkProps(props, FeedToGrid, c1, 0.0) == Ok(s1) && PeriodScore(c1.activity, s1) == Score(0.5, 0.0)
    requires exists s2 :: ChunkProps(props, FeedToGrid, c2, 0.0) == Ok(s2) && PeriodScore(c2.activity, s2) == Score(1.5, 1.0)
    requires exists s3 :: ChunkProps(props, FeedToGrid, c3, 1.0) == Ok(s3) && PeriodScore(c3.activity, s3) == Score(0.5, 0.0)
    requires exists s4 :: ChunkProps(props, FeedToGrid, c4, 1.0) == Ok(s4) && PeriodScore(c4.activity, s4) == Score(0.0, -0.5)
    ensures Fold(props, FeedToGrid, [c1, c2, c3, c4] + rest, FoldState(0.0, 0.0)) ==
            Fold(props, FeedToGrid, rest, FoldState(-2.5, 0.5))
  {
    FoldChunk(props, c4, rest, FoldState(-2.5, 1.0), Score(0.0, -0.5));
    FoldChunk(props, c3, [c4] + rest, FoldState(-2.0, 1.0), Score(0.5, 0.0));
    FoldChunk(props, c2, [c3] + ([c4] + rest), FoldState(-0.5, 0.0), Score(1.5, 1.0));
    FoldChunk(props, c1, [c2] + ([c3] + ([c4] + rest)), FoldState(0.0, 0.0), Score(0.5, 0.0));
    assert [c1] + ([c2] + ([c3] + ([c4] + rest))) == [c1, c2, c3, c4] + rest;
  }

  /** An idle hour at score -2.5 and level 0.5 whose input is known and that costs 1 ends the fold at -3.5. */
  lemma FoldLastHour(props: FitnessProps, c5: Interval)
    requires exists s5 :: ChunkProps(props, FeedToGrid, c5, 0.5) == Ok(s5) && PeriodScore(c5.activity, s5) == Score(1.0, 0.0)
    ensures Fold(props, FeedToGrid, [c5], FoldState(-2.5, 0.5)) == Ok(FoldState(-3.5, 0.5))
  {
    var s5 :| ChunkProps(props, FeedToGrid, c5, 0.5) == Ok(s5) && PeriodScore(c5.activity, s5) == Score(1.0, 0.0);
    FoldCons(props, FeedToGrid, c5, [], FoldState(-2.5, 0.5), Score(1.0, 0.0));
    assert [c5] + [] == [c5];
  }

  /** The example's five chunks folded from an empty battery, with and without the last hour. */
  lemma FoldExampleChunks(props: FitnessProps, c1: Interval, c2: Interval, c3: Interval, c4: Interval, c5: Interval)
    requires exists s1 :: ChunkProps(props, FeedToGrid, c1, 0.0) == Ok(s1) && PeriodScore(c1.activity, s1) == Score(0.5, 0.0)
    requires exists s2 :: ChunkProps(props, FeedToGrid, c2, 0.0) == Ok(s2) && PeriodScore(c2.activity, s2) == Score(1.5, 1.0)
    requires exists s3 :: ChunkProps(props, FeedToGrid, c3, 1.0) == Ok(s3) && PeriodScore(c3.activity, s3) == Score(0.5, 0.0)
    requires exists s4 :: ChunkProps(props, FeedToGrid, c4, 1.0) == Ok(s4) && PeriodScore(c4.activity, s4) == Score(0.0, -0.5)
    requires exists s5 :: ChunkProps(props, FeedToGrid, c5, 0.5) == Ok(s5) && PeriodScore(c5.activity, s5) == Score(1.0, 0.0)
    ensures Fold(props, FeedToGrid, [c1, c2, c3, c4], FoldState(0.0, 0.0)) == Ok(FoldState(-2.5, 0.5))
    ensures Fold(props, FeedToGrid, [c1, c2, c3, c4, c5], FoldState(0.0, 0.0)) == Ok(FoldState(-3.5, 0.5))
  {
    FoldFourChunks(props, c1, c2, c3, c4, []);
    FoldFourChunks(props, c1, c2, c3, c4, [c5]);
    assert [c1, c2, c3, c4] + [] == [c1, c2, c3, c4] && [c1, c2, c3, c4] + [c5] == [c1, c2, c3, c4, c5];
    FoldLastHour(props, c5);
  }

  /** The fold of the example's chunks from an empty battery. */
  lemma TestFold(T: int, c1: Interval, c2: Interval, c3: Interval, c4: Interval, c5: Interval)
    requires c1 == Interval(0, 30, Idle) && c2 == Interval(30, 30, Charge) && c3 == Interval(60, 30, Charge)
    requires c4 == Interval(90, 30, Discharge) && c5 == Interval(120, 60, Idle)
    ensures Fold(TestProps(T), FeedToGrid, [c1, c2, c3, c4], FoldState(0.0, 0.0)) == Ok(FoldState(-2.5, 0.5))
    ensures Fold(TestProps(T), FeedToGrid, [c1, c2, c3, c4, c5], FoldState(0.0, 0.0)) == Ok(FoldState(-3.5, 0.5))
  {
    var props := TestProps(T);
    TestIdleChunk(T, c1, 0.0, Score(0.5, 0.0));
    TestChargeChunk(T, c2, 0.0, Score(1.5, 1.0));
    TestChargeChunk(T, c3, 1.0, Score(0.5, 0.0));
    TestDischargeChunk(T, c4, 1.0, Score(0.0, -0.5));
    TestIdleChunk(T, c5, 0.5, Score(1.0, 0.0));
    FoldExampleChunks(props, c1, c2, c3, c4, c5);
  }

  /** The fitness of a schedule is the score its timeline folds to from the initial state. */
  lemma FitnessOfFold(props: FitnessProps, p: seq<Interval>, policy: PvPolicy, cs: seq<Interval>, st: FoldState)
    requires FilledTimeline(props.totalDuration, p) == cs
    requires Fold(props, policy, cs, InitialState(props)) == Ok(st)
    ensures FitnessValue(props, p, policy) == Ok(st.score)
  {
  }

  /** An empty battery starts the fold of the test inputs at level 0. */
  lemma TestInitialState(T: int)
    ensures InitialState(TestProps(T)) == FoldState(0.0, 0.0)
  {
    RealArith.ScaledUnit(0.0);
  }

  /** The example of test/fitness.test.js with each period's duration running to the next
      start, over three hours: a score of -3.5. */
  lemma ThreeHourFitness(T: int, p: seq<Interval>, c1: Interval, c2: Interval, c3: Interval, c4: Interval, c5: Interval)
    requires T == 180 && IsTestPeriods(p)
    requires c1 == Interval(0, 30, Idle) && c2 == Interval(30, 30, Charge) && c3 == Interval(60, 30, Charge)
    requires c4 == Interval(90, 30, Discharge) && c5 == Interval(120, 60, Idle)
    ensures FitnessValue(TestProps(T), p, FeedToGrid) == Ok(-3.5)
  {
    TestTimeline(p);
    TestFold(T, c1, c2, c3, c4, c5);
    TestInitialState(T);
    FitnessOfFold(TestProps(T), p, FeedToGrid, [c1, c2, c3, c4, c5], FoldState(-3.5, 0.5));
  }

  /** The same example over two hours, without the final idle period: a score of -2.5. */
  lemma TwoHourFitness(T: int, p: seq<Interval>, c1: Interval, c2: Interval, c3: Interval, c4: Interval, c5: Interval)
    requires T == 120 && IsTestPeriods(p)
    requires c1 == Interval(0, 30, Idle) && c2 == Interval(30, 30, Charge) && c3 == Interval(60, 30, Charge)
    requires c4 == Interval(90, 30, Discharge) && c5 == Interval(120, 60, Idle)
    ensures FitnessValue(TestProps(T), p[..3], FeedToGrid) == Ok(-2.5)
  {
    TestTimeline(p);
    TestFold(T, c1, c2, c3, c4, c5);
    TestInitialState(T);
    FitnessOfFold(TestProps(T), p[..3], FeedToGrid, [c1, c2, c3, c4], FoldState(-2.5, 0.5));
  }

  /** Both examples of test/fitness.test.js, for the four periods of the tests. */
  lemma FitnessExamples(p: seq<Interval>)
    requires IsTestPeriods(p)
    ensures FitnessValue(TestProps(180), p, FeedToGrid) == Ok(-3.5)
    ensures FitnessValue(TestProps(120), p[..3], FeedToGrid) == Ok(-2.5)
  {
    var c1, c2, c3, c4, c5 := Interval(0, 30, Idle), Interval(30, 30, Charge), Interval(60, 30, Charge),
                              Interval(90, 30, Discharge), Interval(120, 60, Idle);
    ThreeHourFitness(180, p, c1, c2, c3, c4, c5);
    TwoHourFitness(120, p, c1, c2, c3, c4, c5);
  }

  // ---------------------------------------------------------------------
  // Properties of the fold
  // ---------------------------------------------------------------------

  predicate NonNegativeInput(input: seq<Sample>) {
    forall k :: 0 <= k < |input| ==> input[k].consumption >= 0.0 && input[k].production >= 0.0
  }

  /** The clamps maxCharge = min(power, capacity - level) and maxDischarge = min(power, level)
      keep every battery level the fold reaches inside [0, batteryMaxEnergy]. */
  lemma {:induction false} FoldKeepsBatteryInRange(props: FitnessProps, policy: PvPolicy, cs: seq<Interval>, st: FoldState)
    requires 0.0 <= st.currentCharge <= props.batteryMaxEnergy
    requires props.batteryMaxInputPower >= 0.0 && NonNegativeInput(props.input)
    requires forall k :: 0 <= k < |cs| ==> cs[k].duration >= 0
    ensures Fold(props, policy, cs, st).Ok? ==>
              0.0 <= Fold(props, policy, cs, st).value.currentCharge <= props.batteryMaxEnergy
  {
    if |cs| > 0 {
      var r := ChunkProps(props, policy, cs[0], st.currentCharge);
      if r.Ok? {
        var v := PeriodScore(cs[0].activity, r.value);
        var after := FoldState(st.score - v.cost, st.currentCharge + v.charge);
        assert Fold(props, policy, cs, st) == Fold(props, policy, cs[1..], after);
        StepKeepsBattery(props, policy, cs[0], st.currentCharge);
        FoldKeepsBatteryInRange(props, policy, cs[1..], after);
      }
    }
  }

  /** One chunk moves a battery level inside [0, batteryMaxEnergy] to another one inside it. */
  lemma StepKeepsBattery(props: FitnessProps, policy: PvPolicy, c: Interval, currentCharge: real)
    requires 0.0 <= currentCharge <= props.batteryMaxEnergy
    requires props.batteryMaxInputPower >= 0.0 && NonNegativeInput(props.input) && c.duration >= 0
    requires ChunkProps(props, policy, c, currentCharge).Ok?
    ensures var v := PeriodScore(c.activity, ChunkProps(props, policy, c, currentCharge).value);
            0.0 <= currentCharge + v.charge <= props.batteryMaxEnergy
  {
    var sp := ChunkProps(props, policy, c, currentCharge).value;
    var s := props.input[c.start / 60];
    var hours := c.duration as real / 60.0;
    ScaledNonNegative(s.consumption, hours);
    ScaledNonNegative(s.production, hours);
    assert Physical(sp);
    BatteryFlowWithinLimits(c.activity, sp);
  }

  /** Seeded from soc * batteryMaxEnergy with soc in [0, 1], the battery level
      stays inside [0, batteryMaxEnergy] over the whole filled timeline. */
  lemma FitnessKeepsBatteryInRange(props: FitnessProps, periods: seq<Interval>, policy: PvPolicy, n: nat)
    requires 0.0 <= props.soc <= 1.0 && props.batteryMaxEnergy >= 0.0
    requires props.batteryMaxInputPower >= 0.0 && NonNegativeInput(props.input)
    requires n <= |FilledTimeline(props.totalDuration, periods)|
    ensures var cs := FilledTimeline(props.totalDuration, periods)[..n];
            Fold(props, policy, cs, InitialState(props)).Ok? ==>
              0.0 <= Fold(props, policy, cs, InitialState(props)).value.currentCharge <= props.batteryMaxEnergy
  {
    var all := FilledTimeline(props.totalDuration, periods);
    FilledChunksPositive(props.totalDuration, periods);
    ScaledFraction(props.soc, props.batteryMaxEnergy);
    FoldKeepsBatteryInRange(props, policy, all[..n], InitialState(props));
  }

  lemma {:induction false} HourChunksPositive(start: int, remaining: int, activity: Activity)
    ensures forall k :: 0 <= k < |HourChunks(start, remaining, activity)| ==> HourChunks(start, remaining, activity)[k].duration > 0
    decreases remaining
  {
    if remaining > 0 {
      var i := MinInt(60 - JsRemainder(start, 60), remaining);
      HourChunksPositive(start + i, remaining - i, activity);
      var rest := HourChunks(start + i, remaining - i, activity);
      assert HourChunks(start, remaining, activity) == [Interval(start, i, activity)] + rest;
    }
  }

  lemma {:induction false} FilledPrefixPositive(p: seq<Interval>, n: nat)
    requires n <= |p|
    ensures forall k :: 0 <= k < |FilledPrefix(p, n)| ==> FilledPrefix(p, n)[k].duration > 0
  {
    if n > 0 {
      FilledPrefixPositive(p, n - 1);
      var gapSeed := NormalPeriod(Predecessor(p, n - 1), p[n - 1].start);
      HourChunksPositive(gapSeed.start, gapSeed.duration, Idle);
      HourChunksPositive(p[n - 1].start, p[n - 1].duration, p[n - 1].activity);
    }
  }

  /** Whatever the periods, gap filling only yields chunks of positive length. */
  lemma FilledChunksPositive(totalDuration: int, p: seq<Interval>)
    ensures forall k :: 0 <= k < |FilledTimeline(totalDuration, p)| ==> FilledTimeline(totalDuration, p)[k].duration > 0
  {
    FilledPrefixPositive(p, |p|);
    var tailSeed := NormalPeriod(Predecessor(p, |p|), totalDuration);
    HourChunksPositive(tailSeed.start, tailSeed.duration, Idle);
  }

  /** Every chunk finds its hourly sample. */
  predicate Indexed(props: FitnessProps, cs: seq<Interval>) {
    forall k :: 0 <= k < |cs| ==> 0 <= cs[k].start / 60 < |props.input|
  }

  /** The fold fails exactly when some chunk has no sample. */
  lemma {:induction false} FoldDefinedIff(props: FitnessProps, policy: PvPolicy, cs: seq<Interval>, st: FoldState)
    ensures Fold(props, policy, cs, st).Ok? <==> Indexed(props, cs)
  {
    if |cs| > 0 {
      match ChunkProps(props, policy, cs[0], st.currentCharge)
      case Err(e) =>
      case Ok(sp) =>
        var v := PeriodScore(cs[0].activity, sp);
        FoldDefinedIff(props, policy, cs[1..], FoldState(st.score - v.cost, st.currentCharge + v.charge));
        assert forall k :: 1 <= k < |cs| ==> cs[k] == cs[1..][k - 1];
    }
  }

  /** For ordered periods, the score is defined exactly when the horizon fits
      the hourly input: totalDuration <= 60 * |input|. */
  lemma FitnessDefinedIff(props: FitnessProps, periods: seq<Interval>, policy: PvPolicy)
    requires Ordered(periods, props.totalDuration)
    ensures FitnessValue(props, periods, policy).Ok? <==> props.totalDuration <= 60 * |props.input|
  {
    var cs := FilledTimeline(props.totalDuration, periods);
    FilledTimelineTiles(props.totalDuration, periods);
    FilledTimelineAligned(props.totalDuration, periods);
    FoldDefinedIff(props, policy, cs, InitialState(props));
    IndexedIff(props, cs, props.totalDuration);
  }

  /** A timeline from 0 to T in hour-aligned chunks finds a sample for every chunk
      exactly when the input has at least T / 60 hours. */
  lemma IndexedIff(props: FitnessProps, cs: seq<Interval>, T: int)
    requires Tiles(cs, 0, T) && HourAligned(cs)
    ensures Indexed(props, cs) <==> T <= 60 * |props.input|
  {
    var n := |props.input|;
    TilesSpan(cs, 0, T);
    if T <= 60 * n {
      forall k | 0 <= k < |cs| ensures 0 <= cs[k].start / 60 < n {
        HourIndexInRange(cs[k].start, n);
      }
    } else {
      var k := TilesCover(cs, 0, T, 60 * n);
      HourIndexPastEnd(cs[k].start, cs[k].duration, n);
    }
  }

  lemma HourIndexInRange(start: int, n: int)
    requires 0 <= start < 60 * n
    ensures 0 <= start / 60 < n
  {
  }

  /** A chunk inside one hour that covers minute 60 * n lies in hour n. */
  lemma HourIndexPastEnd(start: int, duration: int, n: int)
    requires start >= 0 && start % 60 + duration <= 60
    requires start <= 60 * n < start + duration
    ensures start / 60 == n
  {
    var q := start / 60;
    assert start == 60 * q + start % 60;
  }

  /** The chunk of a tiling that covers minute t. */
  lemma {:induction false} TilesCover(cs: seq<Interval>, from: int, to: int, t: int) returns (k: nat)
    requires Tiles(cs, from, to) && from <= t < to
    ensures k < |cs| && cs[k].start <= t < End(cs[k])
  {
    if t < End(cs[0]) {
      k := 0;
    } else {
      var j := TilesCover(cs[1..], End(cs[0]), to, t);
      k := j + 1;
    }
  }
}
