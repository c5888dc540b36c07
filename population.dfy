/** The initial population of src/population.js. Each individual draws
    activities until it holds `numberOfPricePeriods` non-idle ones, then draws
    distinct start offsets (always including 0) until there is one per
    activity, sorts them and pairs the i-th start with the i-th activity. */
module Population {
  import opened Types
  import opened RealArith
  import opened Utils

  // ---------------------------------------------------------------------
  // What an individual promises
  // ---------------------------------------------------------------------

  /** The number of activities that are not idle: `currentNumberOfPricePeriods`. */
  function NonIdleCount(acts: seq<Activity>): (c: nat)
    ensures c <= |acts|
  {
    if |acts| == 0 then 0
    else NonIdleCount(acts[..|acts| - 1]) + (if acts[|acts| - 1] != Idle then 1 else 0)
  }

  /** Consecutive activities differ. */
  predicate NoRepeats(acts: seq<Activity>) {
    forall k :: 0 <= k < |acts| - 1 ==> acts[k] != acts[k + 1]
  }

  /** The k-th activity was drawn at base date + 30 minutes per non-idle activity before it;
      when charging is not allowed at that moment it is not Charge. */
  predicate RespectsRestrictions(acts: seq<Activity>, calendar: Calendar, restrictions: Option<Restrictions>) {
    forall k :: 0 <= k < |acts| ==>
      RestrictedAt(Some(calendar(NonIdleCount(acts[..k]) * 30)), restrictions) ==> acts[k] != Charge
  }

  /** Distinct integers, first 0. */
  predicate StartSet(starts: seq<int>) {
    |starts| > 0 && starts[0] == 0 &&
    forall i, j :: 0 <= i < j < |starts| ==> starts[i] != starts[j]
  }

  function MaxInt(a: int, b: int): int {
    if a >= b then a else b
  }

  /** Everything one generated individual satisfies. */
  predicate WellFormed(ph: Phenotype, numberOfPricePeriods: int, totalDuration: int, policy: PvPolicy,
                       calendar: Calendar, restrictions: Option<Restrictions>) {
    var acts := Activities(ph.periods);
    |acts| > 0 &&
    ph.excessPvEnergyUse == policy &&
    NonIdleCount(acts) == numberOfPricePeriods &&
    acts[|acts| - 1] != Idle &&
    NoRepeats(acts) &&
    RespectsRestrictions(acts, calendar, restrictions) &&
    (totalDuration >= 0 ==> ph.periods[0].start == 0) &&
    StrictlyIncreasing(Starts(ph.periods)) &&
    (totalDuration >= 0 ==> |ph.periods| <= MaxInt(totalDuration, 1)) &&
    (totalDuration >= 1 ==> ValidSchedule(ph.periods, totalDuration))
  }

  // ---------------------------------------------------------------------
  // The activity loop, src/population.js:21-37
  // ---------------------------------------------------------------------

  lemma NonIdleCountPrefix(acts: seq<Activity>, a: Activity, k: nat)
    requires k <= |acts|
    ensures (acts + [a])[..k] == acts[..k]
    ensures NonIdleCount(acts + [a]) == NonIdleCount(acts) + (if a != Idle then 1 else 0)
  {
    assert (acts + [a])[..|acts|] == acts;
  }

  /** Appending a draw that differs from the last activity keeps consecutive activities distinct. */
  lemma AppendNoRepeat(acts: seq<Activity>, a: Activity)
    requires NoRepeats(acts)
    requires |acts| > 0 ==> a != acts[|acts| - 1]
    ensures NoRepeats(acts + [a])
    ensures NonIdleCount(acts + [a]) == NonIdleCount(acts) + (if a != Idle then 1 else 0)
  {
    NonIdleCountPrefix(acts, a, |acts|);
    var ext := acts + [a];
    forall k | 0 <= k < |ext| - 1 ensures ext[k] != ext[k + 1] {
      if k + 1 < |acts| {
        assert ext[k] == acts[k] && ext[k + 1] == acts[k + 1];
      } else {
        assert ext[k] == acts[|acts| - 1] && ext[k + 1] == a;
      }
    }
  }

  /** Appending a draw that respects the restriction at its own moment keeps every draw respecting it. */
  lemma AppendRespects(acts: seq<Activity>, a: Activity, calendar: Calendar, restrictions: Option<Restrictions>)
    requires RespectsRestrictions(acts, calendar, restrictions)
    requires RestrictedAt(Some(calendar(NonIdleCount(acts) * 30)), restrictions) ==> a != Charge
    ensures RespectsRestrictions(acts + [a], calendar, restrictions)
  {
    var ext := acts + [a];
    forall k | 0 <= k < |ext|
      ensures RestrictedAt(Some(calendar(NonIdleCount(ext[..k]) * 30)), restrictions) ==> ext[k] != Charge
    {
      NonIdleCountPrefix(acts, a, if k < |acts| then k else |acts|);
      if k < |acts| {
        assert ext[k] == acts[k];
      }
    }
  }

  /** One more draw that differs from the last activity and respects the restriction
      at its own moment keeps both invariants and counts one more non-idle draw. */
  lemma AppendDraw(acts: seq<Activity>, a: Activity, calendar: Calendar, restrictions: Option<Restrictions>)
    requires NoRepeats(acts) && RespectsRestrictions(acts, calendar, restrictions)
    requires |acts| > 0 ==> a != acts[|acts| - 1]
    requires RestrictedAt(Some(calendar(NonIdleCount(acts) * 30)), restrictions) ==> a != Charge
    ensures NoRepeats(acts + [a]) && RespectsRestrictions(acts + [a], calendar, restrictions)
    ensures NonIdleCount(acts + [a]) == NonIdleCount(acts) + (if a != Idle then 1 else 0)
    ensures |acts + [a]| > 0 && (acts + [a])[|acts + [a]| - 1] == a
  {
    AppendNoRepeat(acts, a);
    AppendRespects(acts, a, calendar, restrictions);
  }

  /** The activity loop's invariant, one draw at a time: each draw differs from the
      one before it and is not Charge at a restricted moment. */
  predicate DrawnInOrder(acts: seq<Activity>, calendar: Calendar, restrictions: Option<Restrictions>)
    decreases |acts|
  {
    |acts| == 0 ||
    var init, a := acts[..|acts| - 1], acts[|acts| - 1];
    DrawnInOrder(init, calendar, restrictions) &&
    (|init| > 0 ==> a != init[|init| - 1]) &&
    (RestrictedAt(Some(calendar(NonIdleCount(init) * 30)), restrictions) ==> a != Charge)
  }

  /** Drawing in order is exactly having no repeats and respecting the restrictions. */
  lemma {:induction false} DrawnInOrderMeans(acts: seq<Activity>, calendar: Calendar, restrictions: Option<Restrictions>)
    ensures DrawnInOrder(acts, calendar, restrictions) <==>
            NoRepeats(acts) && RespectsRestrictions(acts, calendar, restrictions)
    decreases |acts|
  {
    if |acts| > 0 {
      var init, a := acts[..|acts| - 1], acts[|acts| - 1];
      assert acts == init + [a];
      DrawnInOrderMeans(init, calendar, restrictions);
      if NoRepeats(acts) && RespectsRestrictions(acts, calendar, restrictions) {
        forall k | 0 <= k < |init| - 1 ensures init[k] != init[k + 1] {
          assert init[k] == acts[k] && init[k + 1] == acts[k + 1];
        }
        forall k | 0 <= k < |init|
          ensures RestrictedAt(Some(calendar(NonIdleCount(init[..k]) * 30)), restrictions) ==> init[k] != Charge
        {
          assert init[..k] == acts[..k] && init[k] == acts[k];
        }
        assert acts[..|init|] == init;
        if |init| > 0 {
          assert acts[|init| - 1] != acts[|init|];
        }
      }
      if DrawnInOrder(acts, calendar, restrictions) {
        AppendDraw(init, a, calendar, restrictions);
      }
    }
  }

  /** One iteration of the activity loop, before the target is reached, keeps its
      invariants: the count grows by one exactly for a non-idle draw and stays within
      the target, and once the target is reached the last draw is non-idle. */
  lemma ActivityStep(numberOfPricePeriods: int, acts: seq<Activity>, a: Activity,
                     calendar: Calendar, restrictions: Option<Restrictions>)
    requires NonIdleCount(acts) < numberOfPricePeriods
    requires DrawnInOrder(acts, calendar, restrictions)
    requires |acts| > 0 ==> a != acts[|acts| - 1]
    requires RestrictedAt(Some(calendar(NonIdleCount(acts) * 30)), restrictions) ==> a != Charge
    ensures DrawnInOrder(acts + [a], calendar, restrictions)
    ensures NonIdleCount(acts + [a]) == NonIdleCount(acts) + (if a != Idle then 1 else 0)
    ensures NonIdleCount(acts + [a]) <= MaxInt(numberOfPricePeriods, 0)
    ensures NonIdleCount(acts + [a]) == MaxInt(numberOfPricePeriods, 0) ==> a != Idle
    ensures (acts + [a])[|acts + [a]| - 1] == a
  {
    NonIdleCountPrefix(acts, a, |acts|);
  }

  /** Draw activities, each excluding the previous one, until `numberOfPricePeriods` are non-idle. */
  method DrawActivities(numberOfPricePeriods: int, calendar: Calendar, restrictions: Option<Restrictions>,
                        draws: Draws, pos: nat)
    returns (acts: seq<Activity>, next: nat)
    requires ValidDraws(draws)
    ensures NonIdleCount(acts) == MaxInt(numberOfPricePeriods, 0)
    ensures |acts| > 0 ==> acts[|acts| - 1] != Idle
    ensures NoRepeats(acts)
    ensures RespectsRestrictions(acts, calendar, restrictions)
    ensures pos <= next
  {
    acts := [];
    next := pos;
    var currentNumberOfPricePeriods := 0;
    var previousActivity: Option<Activity> := None;
    while currentNumberOfPricePeriods < numberOfPricePeriods
      invariant currentNumberOfPricePeriods == NonIdleCount(acts) <= MaxInt(numberOfPricePeriods, 0)
      invariant previousActivity == if |acts| == 0 then None else Some(acts[|acts| - 1])
      invariant |acts| > 0 && currentNumberOfPricePeriods == MaxInt(numberOfPricePeriods, 0) ==> acts[|acts| - 1] != Idle
      invariant DrawnInOrder(acts, calendar, restrictions)
      invariant pos <= next
      decreases 2 * (numberOfPricePeriods - currentNumberOfPricePeriods) + (if |acts| > 0 && acts[|acts| - 1] == Idle then 0 else 1)
    {
      var periodStart := calendar(currentNumberOfPricePeriods * 30);
      var drawn := GenerateRandomActivity(previousActivity, Some(periodStart), restrictions, draws, next);
      var activity := drawn.0;
      next := drawn.1;
      ActivityStep(numberOfPricePeriods, acts, activity, calendar, restrictions);
      currentNumberOfPricePeriods := currentNumberOfPricePeriods + (if activity != Idle then 1 else 0);
      acts := acts + [activity];
      previousActivity := Some(activity);
    }
    DrawnInOrderMeans(acts, calendar, restrictions);
  }

  // ---------------------------------------------------------------------
  // The start-offset loop, src/population.js:39-43
  // ---------------------------------------------------------------------

  /** Math.floor(Math.random() * totalDuration). */
  function DrawStart(totalDuration: int, r: real): int {
    Scaled(r, totalDuration as real).Floor
  }

  lemma DrawStartBounds(totalDuration: int, r: real)
    requires IsDraw(r) && totalDuration >= 0
    ensures 0 <= DrawStart(totalDuration, r) < MaxInt(totalDuration, 1)
  {
    if totalDuration > 0 {
      ScaledDraw(r, totalDuration as real);
    } else {
      ScaledUnit(r);
    }
  }

  /** The offsets drawn from positions pos, pos + 1, ..., pos + n - 1. */
  function Drawn(totalDuration: int, draws: Draws, pos: nat, n: nat): (xs: seq<int>)
    ensures |xs| == n
  {
    if n == 0 then [] else Drawn(totalDuration, draws, pos, n - 1) + [DrawStart(totalDuration, draws(pos + n - 1))]
  }

  lemma {:induction false} DrawnAt(totalDuration: int, draws: Draws, pos: nat, n: nat, k: nat)
    requires k < n
    ensures Drawn(totalDuration, draws, pos, n)[k] == DrawStart(totalDuration, draws(pos + k))
  {
    if k < n - 1 {
      DrawnAt(totalDuration, draws, pos, n - 1, k);
    }
  }

  /** Set.prototype.add of each value in turn: a value already present is skipped,
      so the result lists the distinct values in order of first insertion. */
  function AddAll(set0: seq<int>, xs: seq<int>): seq<int> {
    if |xs| == 0 then set0
    else
      var before := AddAll(set0, xs[..|xs| - 1]);
      if xs[|xs| - 1] in before then before else before + [xs[|xs| - 1]]
  }

  /** One more draw: the set after used + 1 draws is the set after used draws with the new offset added. */
  lemma DrawStep(totalDuration: int, draws: Draws, pos: nat, used: nat)
    ensures var before := AddAll([0], Drawn(totalDuration, draws, pos, used));
            var s := DrawStart(totalDuration, draws(pos + used));
            AddAll([0], Drawn(totalDuration, draws, pos, used + 1)) == if s in before then before else before + [s]
  {
    var xs := Drawn(totalDuration, draws, pos, used);
    assert (xs + [DrawStart(totalDuration, draws(pos + used))])[..used] == xs;
  }

  /** The set holds exactly the initial values and the added ones. */
  lemma {:induction false} AddAllElements(set0: seq<int>, xs: seq<int>, y: int)
    ensures y in AddAll(set0, xs) <==> y in set0 || y in xs
  {
    if |xs| > 0 {
      var init := xs[..|xs| - 1];
      AddAllElements(set0, init, y);
      assert xs == init + [xs[|xs| - 1]];
    }
  }

  /** The JavaScript Set: its elements in insertion order. `fuel` bounds the
      number of draws; the source loops until the set is large enough, which
      never happens when there are fewer possible offsets than activities, so
      running out of fuel yields None. */
  method DrawStarts(count: nat, totalDuration: int, fuel: nat, draws: Draws, pos: nat)
    returns (starts: Option<seq<int>>, next: nat)
    requires ValidDraws(draws)
    ensures pos <= next <= pos + fuel
    ensures starts.Some? ==> StartSet(starts.value) && |starts.value| == MaxInt(count, 1)
    ensures starts.Some? ==> DrawnFrom(starts.value, totalDuration, draws, pos, next)
    ensures starts.Some? && totalDuration >= 0 ==>
              forall k :: 0 <= k < |starts.value| ==> 0 <= starts.value[k] < MaxInt(totalDuration, 1)
    ensures starts.Some? && totalDuration >= 0 ==> count <= MaxInt(totalDuration, 1)
    ensures starts.None? ==> next == pos + fuel
    ensures count <= 1 ==> starts.Some? && next == pos
  {
    var startSet := [0];
    next := pos;
    var used := 0;
    while |startSet| < count
      invariant 1 <= |startSet| <= MaxInt(count, 1)
      invariant used <= fuel && next == pos + used && (count <= 1 ==> used == 0)
      invariant startSet == AddAll([0], Drawn(totalDuration, draws, pos, used))
      decreases fuel - used
    {
      if used == fuel {
        starts := None;
        return;
      }
      var s := DrawStart(totalDuration, draws(next));
      DrawStep(totalDuration, draws, pos, used);
      if s !in startSet {
        startSet := startSet + [s];
      }
      next, used := next + 1, used + 1;
    }
    DrawnSetFacts(totalDuration, draws, pos, used);
    starts := Some(startSet);
  }

  /** Every start is 0 or the offset drawn at one of the positions pos, ..., next - 1. */
  predicate DrawnFrom(starts: seq<int>, totalDuration: int, draws: Draws, pos: nat, next: nat) {
    forall k :: 0 <= k < |starts| ==>
      starts[k] == 0 || exists j :: pos <= j < next && starts[k] == DrawStart(totalDuration, draws(j))
  }

  /** Every start of a drawn set other than 0 is the offset drawn at some consumed position. */
  lemma DrawnStartsOrigin(totalDuration: int, draws: Draws, pos: nat, n: nat, y: int)
    requires y in AddAll([0], Drawn(totalDuration, draws, pos, n))
    ensures y == 0 || exists j :: pos <= j < pos + n && y == DrawStart(totalDuration, draws(j))
  {
    AddAllElements([0], Drawn(totalDuration, draws, pos, n), y);
    if y != 0 {
      var xs := Drawn(totalDuration, draws, pos, n);
      var k :| 0 <= k < n && xs[k] == y;
      DrawnAt(totalDuration, draws, pos, n, k);
    }
  }

  /** Adding values to the set {0} gives distinct values, the first of them 0. */
  lemma {:induction false} AddAllStartSet(xs: seq<int>)
    ensures StartSet(AddAll([0], xs))
  {
    if |xs| > 0 {
      var init := xs[..|xs| - 1];
      AddAllStartSet(init);
    }
  }

  /** Every start of a drawn set lies in [0, max(totalDuration, 1)). */
  lemma DrawnInRange(totalDuration: int, draws: Draws, pos: nat, n: nat, y: int)
    requires ValidDraws(draws) && totalDuration >= 0
    requires y in AddAll([0], Drawn(totalDuration, draws, pos, n))
    ensures 0 <= y < MaxInt(totalDuration, 1)
  {
    DrawnStartsOrigin(totalDuration, draws, pos, n, y);
    if y != 0 {
      var j :| pos <= j < pos + n && y == DrawStart(totalDuration, draws(j));
      DrawStartBounds(totalDuration, draws(j));
    }
  }

  /** The set after n draws: distinct, 0 first, every other start drawn, and inside
      [0, max(totalDuration, 1)), which bounds its size. */
  lemma DrawnSetFacts(totalDuration: int, draws: Draws, pos: nat, n: nat)
    requires ValidDraws(draws)
    ensures var startSet := AddAll([0], Drawn(totalDuration, draws, pos, n));
            StartSet(startSet) && DrawnFrom(startSet, totalDuration, draws, pos, pos + n) &&
            (totalDuration >= 0 ==>
               (forall k :: 0 <= k < |startSet| ==> 0 <= startSet[k] < MaxInt(totalDuration, 1)) &&
               |startSet| <= MaxInt(totalDuration, 1))
  {
    var startSet := AddAll([0], Drawn(totalDuration, draws, pos, n));
    AddAllStartSet(Drawn(totalDuration, draws, pos, n));
    forall k | 0 <= k < |startSet|
      ensures startSet[k] == 0 || exists j :: pos <= j < pos + n && startSet[k] == DrawStart(totalDuration, draws(j))
    {
      DrawnStartsOrigin(totalDuration, draws, pos, n, startSet[k]);
    }
    if totalDuration >= 0 {
      forall k | 0 <= k < |startSet| ensures 0 <= startSet[k] < MaxInt(totalDuration, 1) {
        DrawnInRange(totalDuration, draws, pos, n, startSet[k]);
      }
      DistinctInRange(startSet, MaxInt(totalDuration, 1));
    }
  }

  /** A sequence of distinct values in [0, m) has at most m elements. */
  lemma DistinctInRange(xs: seq<int>, m: int)
    requires forall i, j :: 0 <= i < j < |xs| ==> xs[i] != xs[j]
    requires forall k :: 0 <= k < |xs| ==> 0 <= xs[k] < m
    requires m >= 0
    ensures |xs| <= m
  {
    DistinctCard(xs);
    RangeCard(ElementsOf(xs), m);
  }

  function ElementsOf(xs: seq<int>): set<int> {
    set x | x in xs
  }

  lemma {:induction false} DistinctCard(xs: seq<int>)
    requires forall i, j :: 0 <= i < j < |xs| ==> xs[i] != xs[j]
    ensures |ElementsOf(xs)| == |xs|
  {
    if |xs| > 0 {
      var rest := xs[1..];
      DistinctCard(rest);
      assert ElementsOf(xs) == ElementsOf(rest) + {xs[0]};
      assert xs[0] !in rest;
    }
  }

  lemma {:induction false} RangeCard(s: set<int>, m: int)
    requires forall x :: x in s ==> 0 <= x < m
    ensures |s| <= MaxInt(m, 0)
    decreases MaxInt(m, 0)
  {
    if m > 0 {
      RangeCard(s - {m - 1}, m - 1);
    } else {
      assert forall x :: x !in s;
      assert s == {};
    }
  }

  // ---------------------------------------------------------------------
  // Sort and zip, src/population.js:44-48
  // ---------------------------------------------------------------------

  /** Insert x into an increasing sequence at its place. */
  function Insert(xs: seq<int>, x: int): (ys: seq<int>)
    requires StrictlyIncreasing(xs) && x !in xs
    ensures StrictlyIncreasing(ys)
    ensures |ys| == |xs| + 1
    ensures forall y :: y in ys <==> y in xs || y == x
  {
    if |xs| == 0 then [x]
    else if x < xs[0] then [x] + xs
    else
      var rest := Insert(xs[1..], x);
      assert xs[0] < x;
      assert forall y :: y in xs[1..] ==> xs[0] < y;
      assert forall k :: 0 <= k < |rest| ==> rest[k] in rest;
      [xs[0]] + rest
  }

  /** .sort((a, b) => a - b) of distinct integers. */
  function SortAscending(xs: seq<int>): (ys: seq<int>)
    requires forall i, j :: 0 <= i < j < |xs| ==> xs[i] != xs[j]
    ensures StrictlyIncreasing(ys)
    ensures |ys| == |xs|
    ensures forall y :: y in ys <==> y in xs
  {
    if |xs| == 0 then []
    else
      var init := xs[..|xs| - 1];
      assert forall y :: y in init ==> y in xs;
      assert xs[|xs| - 1] !in init;
      Insert(SortAscending(init), xs[|xs| - 1])
  }

  /** sorted.forEach((start, i) => timePeriods.insertBack({ start, activity: activities[i] })). */
  method Zip(starts: seq<int>, activities: seq<Activity>) returns (genes: seq<Gene>)
    requires |starts| == |activities|
    ensures Starts(genes) == starts && Activities(genes) == activities
  {
    genes := [];
    for i := 0 to |starts|
      invariant |genes| == i
      invariant forall k :: 0 <= k < i ==> genes[k] == Gene(starts[k], activities[k])
    {
      genes := genes + [Gene(starts[i], activities[i])];
    }
  }

  /** A start drawn in a window of positions was drawn in any window around it. */
  lemma DrawnFromWiden(starts: seq<int>, totalDuration: int, draws: Draws, pos: nat, next: nat,
                       earlier: nat, later: nat)
    requires earlier <= pos && next <= later && DrawnFrom(starts, totalDuration, draws, pos, next)
    ensures DrawnFrom(starts, totalDuration, draws, earlier, later)
  {
    forall k | 0 <= k < |starts|
      ensures starts[k] == 0 || exists j :: earlier <= j < later && starts[k] == DrawStart(totalDuration, draws(j))
    {
      if starts[k] != 0 {
        var j :| pos <= j < next && starts[k] == DrawStart(totalDuration, draws(j));
      }
    }
  }

  /** The drawn set in any order still holds only drawn starts, and drawing earlier widens the window. */
  lemma SortedDrawnFrom(sorted: seq<int>, startSet: seq<int>, totalDuration: int, draws: Draws, pos: nat, mid: nat, next: nat)
    requires pos <= mid && DrawnFrom(startSet, totalDuration, draws, mid, next)
    requires forall y :: y in sorted <==> y in startSet
    ensures DrawnFrom(sorted, totalDuration, draws, pos, next)
  {
    forall k | 0 <= k < |sorted|
      ensures sorted[k] == 0 || exists j :: pos <= j < next && sorted[k] == DrawStart(totalDuration, draws(j))
    {
      assert sorted[k] in startSet;
      var i :| 0 <= i < |startSet| && startSet[i] == sorted[k];
    }
  }

  /** One individual, or None when the start draws run out of fuel. */
  method GenerateIndividual(totalDuration: int, numberOfPricePeriods: int, policy: PvPolicy,
                            calendar: Calendar, restrictions: Option<Restrictions>,
                            fuel: nat, draws: Draws, pos: nat)
    returns (individual: Option<Phenotype>, next: nat)
    requires ValidDraws(draws)
    requires numberOfPricePeriods >= 1
    ensures individual.Some? ==>
              WellFormed(individual.value, numberOfPricePeriods, totalDuration, policy, calendar, restrictions)
    ensures individual.Some? ==> DrawnFrom(Starts(individual.value.periods), totalDuration, draws, pos, next)
    ensures individual.None? ==> pos + fuel <= next
    ensures pos <= next
  {
    var activities, mid := DrawActivities(numberOfPricePeriods, calendar, restrictions, draws, pos);
    var startTimes;
    startTimes, next := DrawStarts(|activities|, totalDuration, fuel, draws, mid);
    if startTimes.None? {
      individual := None;
      return;
    }
    var sorted := SortAscending(startTimes.value);
    var timePeriods := Zip(sorted, activities);
    individual := Some(Phenotype(timePeriods, policy));
    AssembledIndividual(individual.value, numberOfPricePeriods, totalDuration, calendar, restrictions,
                        activities, startTimes.value, draws, pos, mid, next);
  }

  /** The drawn activities zipped with the sorted drawn starts form a well-formed individual
      whose every start was drawn. */
  lemma AssembledIndividual(ph: Phenotype, numberOfPricePeriods: int, totalDuration: int,
                            calendar: Calendar, restrictions: Option<Restrictions>,
                            acts: seq<Activity>, startSet: seq<int>, draws: Draws, pos: nat, mid: nat, next: nat)
    requires StartSet(startSet) && pos <= mid && DrawnFrom(startSet, totalDuration, draws, mid, next)
    requires totalDuration >= 0 ==> forall k :: 0 <= k < |startSet| ==> 0 <= startSet[k] < MaxInt(totalDuration, 1)
    requires Starts(ph.periods) == SortAscending(startSet) && Activities(ph.periods) == acts
    requires |acts| > 0 && NonIdleCount(acts) == numberOfPricePeriods && acts[|acts| - 1] != Idle
    requires NoRepeats(acts) && RespectsRestrictions(acts, calendar, restrictions)
    ensures WellFormed(ph, numberOfPricePeriods, totalDuration, ph.excessPvEnergyUse, calendar, restrictions)
    ensures DrawnFrom(Starts(ph.periods), totalDuration, draws, pos, next)
  {
    SortedDrawnFrom(Starts(ph.periods), startSet, totalDuration, draws, pos, mid, next);
    IndividualWellFormed(ph, numberOfPricePeriods, totalDuration, calendar, restrictions, startSet);
  }

  /** Sorted distinct starts that include 0, zipped with the drawn activities, form a well-formed individual. */
  lemma IndividualWellFormed(ph: Phenotype, numberOfPricePeriods: int, totalDuration: int,
                             calendar: Calendar, restrictions: Option<Restrictions>, startSet: seq<int>)
    requires StartSet(startSet)
    requires totalDuration >= 0 ==> forall k :: 0 <= k < |startSet| ==> 0 <= startSet[k] < MaxInt(totalDuration, 1)
    requires StrictlyIncreasing(Starts(ph.periods)) && |ph.periods| == |startSet|
    requires forall y :: y in Starts(ph.periods) <==> y in startSet
    requires var acts := Activities(ph.periods);
             |acts| > 0 && NonIdleCount(acts) == numberOfPricePeriods && acts[|acts| - 1] != Idle &&
             NoRepeats(acts) && RespectsRestrictions(acts, calendar, restrictions)
    ensures WellFormed(ph, numberOfPricePeriods, totalDuration, ph.excessPvEnergyUse, calendar, restrictions)
  {
    var genes := ph.periods;
    var starts := Starts(genes);
    if totalDuration >= 0 {
      SortedStartsFirstZero(startSet, starts);
      assert genes[0].start == 0;
      DistinctInRange(startSet, MaxInt(totalDuration, 1));
      assert |genes| <= MaxInt(totalDuration, 1);
      if totalDuration >= 1 {
        SortedStartsValid(genes, totalDuration, startSet);
      }
    }
  }

  /** Sorted starts drawn below totalDuration, the first of them 0, form a valid schedule. */
  lemma SortedStartsValid(genes: seq<Gene>, totalDuration: int, startSet: seq<int>)
    requires totalDuration >= 1 && |genes| > 0 && genes[0].start == 0
    requires StrictlyIncreasing(Starts(genes))
    requires forall y :: y in Starts(genes) <==> y in startSet
    requires forall k :: 0 <= k < |startSet| ==> startSet[k] < totalDuration
    ensures ValidSchedule(genes, totalDuration)
  {
    var starts := Starts(genes);
    forall k | 0 <= k < |genes| ensures genes[k].start < totalDuration {
      assert starts[k] in startSet;
    }
    forall i, j | 0 <= i < j < |genes| ensures genes[i].start < genes[j].start {
      assert starts[i] < starts[j];
    }
  }

  /** The smallest of a start set is its 0. */
  lemma SortedStartsFirstZero(starts: seq<int>, sorted: seq<int>)
    requires StartSet(starts)
    requires StrictlyIncreasing(sorted) && forall y :: y in sorted <==> y in starts
    requires forall k :: 0 <= k < |starts| ==> 0 <= starts[k]
    ensures |sorted| > 0 && sorted[0] == 0
  {
    assert 0 in sorted;
    var j :| 0 <= j < |sorted| && sorted[j] == 0;
    assert sorted[0] in starts;
    assert j == 0 || sorted[0] < sorted[j];
  }

  // ---------------------------------------------------------------------
  // The population, src/population.js:8-55
  // ---------------------------------------------------------------------

  datatype PopulationProps = PopulationProps(totalDuration: int, populationSize: int,
                                             numberOfPricePeriods: int,
                                             excessPvEnergyUse: Option<PvPolicy>,
                                             calendar: Calendar,
                                             chargingRestrictions: Option<Restrictions>)

  /** excessPvEnergyUse = 0 when the field is absent. */
  function PolicyOf(props: PopulationProps): PvPolicy {
    props.excessPvEnergyUse.GetOr(FeedToGrid)
  }

  /** What the population promises of each individual: well formed, and every start
      0 or drawn from a position in [pos, next). */
  predicate Generated(ph: Phenotype, props: PopulationProps, draws: Draws, pos: nat, next: nat) {
    WellFormed(ph, props.numberOfPricePeriods, props.totalDuration, PolicyOf(props),
               props.calendar, props.chargingRestrictions) &&
    DrawnFrom(Starts(ph.periods), props.totalDuration, draws, pos, next)
  }

  /** Appending an individual generated from the positions [next, after) keeps every
      individual generated from [pos, after). */
  lemma PopulationStep(result: seq<Phenotype>, ph: Phenotype, props: PopulationProps,
                       draws: Draws, pos: nat, next: nat, after: nat)
    requires pos <= next <= after
    requires forall k :: 0 <= k < |result| ==> Generated(result[k], props, draws, pos, next)
    requires Generated(ph, props, draws, next, after)
    ensures forall k :: 0 <= k < |result + [ph]| ==> Generated((result + [ph])[k], props, draws, pos, after)
  {
    forall k | 0 <= k < |result + [ph]|
      ensures Generated((result + [ph])[k], props, draws, pos, after)
    {
      if k < |result| {
        assert (result + [ph])[k] == result[k];
        DrawnFromWiden(Starts(result[k].periods), props.totalDuration, draws, pos, next, pos, after);
      } else {
        assert (result + [ph])[k] == ph;
        DrawnFromWiden(Starts(ph.periods), props.totalDuration, draws, next, after, pos, after);
      }
    }
  }

  method PopulationFunction(props: PopulationProps, fuel: nat, draws: Draws, pos: nat)
    returns (population: Option<seq<Phenotype>>, next: nat)
    requires ValidDraws(draws)
    requires props.populationSize > 0 ==> props.numberOfPricePeriods >= 1
    ensures population.Some? ==> |population.value| == MaxInt(props.populationSize, 0)
    ensures population.Some? ==> forall k :: 0 <= k < |population.value| ==>
              WellFormed(population.value[k], props.numberOfPricePeriods, props.totalDuration, PolicyOf(props),
                         props.calendar, props.chargingRestrictions)
    ensures population.Some? ==> forall k :: 0 <= k < |population.value| ==>
              DrawnFrom(Starts(population.value[k].periods), props.totalDuration, draws, pos, next)
    ensures population.None? ==> pos + fuel <= next
    ensures props.populationSize <= 0 ==> population == Some([]) && next == pos
    ensures pos <= next
  {
    var result: seq<Phenotype> := [];
    next := pos;
    var i := 0;
    while i < props.populationSize
      invariant 0 <= i <= MaxInt(props.populationSize, 0) && |result| == i
      invariant forall k :: 0 <= k < |result| ==> Generated(result[k], props, draws, pos, next)
      invariant pos <= next && (i == 0 ==> next == pos)
      decreases props.populationSize - i
    {
      var individual, after := GenerateIndividual(props.totalDuration, props.numberOfPricePeriods, PolicyOf(props),
                                                  props.calendar, props.chargingRestrictions, fuel, draws, next);
      if individual.None? {
        population, next := None, after;
        return;
      }
      PopulationStep(result, individual.value, props, draws, pos, next, after);
      result, next := result + [individual.value], after;
      i := i + 1;
    }
    population := Some(result);
  }
}
