/** The mutation operator of src/mutation.js. Every period is copied; with
    probability mutationRate its activity is redrawn (never the old one, never
    Charge where charging is restricted), and with probability mutationRate a
    period that does not start at 0 has its start moved by up to a tenth of the
    distance to each of its original neighbours. */
module Mutation {
  import opened Types
  import opened RealArith
  import opened Utils

  datatype MutationProps = MutationProps(totalDuration: int, mutationRate: real,
                                         calendar: Calendar,
                                         chargingRestrictions: Option<Restrictions>)

  /** timeAdjustment(low, mid, high) = random(0.1 * (low - mid), 0.1 * (high - mid)). */
  function TimeAdjustment(low: int, mid: int, high: int, r: real): int {
    Random(0.1 * ((low - mid) as real), 0.1 * ((high - mid) as real), r)
  }

  /** The jitter lies in [floor(0.1 * (low - mid)), 0.1 * (high - mid)). */
  lemma TimeAdjustmentBounds(low: int, mid: int, high: int, r: real)
    requires low < high && IsDraw(r)
    ensures (0.1 * ((low - mid) as real)).Floor <= TimeAdjustment(low, mid, high, r)
    ensures (TimeAdjustment(low, mid, high, r) as real) < 0.1 * ((high - mid) as real)
  {
    RandomBounds(0.1 * ((low - mid) as real), 0.1 * ((high - mid) as real), r);
  }

  /** The start of the period after k, or totalDuration for the last one. */
  function NextStart(genes: seq<Gene>, k: nat, totalDuration: int): int
    requires k < |genes|
  {
    if k + 1 < |genes| then genes[k + 1].start else totalDuration
  }

  /** The new activity of period k and the position after the draws it used. */
  function MutatedActivity(props: MutationProps, gene: Gene, draws: Draws, pos: nat): (Activity, nat)
    requires IsDraw(draws(pos + 1))
  {
    if draws(pos) < props.mutationRate then
      GenerateRandomActivity(Some(gene.activity), Some(props.calendar(gene.start)),
                             props.chargingRestrictions, draws, pos + 1)
    else (gene.activity, pos + 1)
  }

  /** The map callback for period k: its copy and the next unused draw, or None
      when it would read node.previous of the first period, which throws. */
  function MutateGene(props: MutationProps, genes: seq<Gene>, k: nat, draws: Draws, pos: nat): Option<(Gene, nat)>
    requires k < |genes| && IsDraw(draws(pos + 1))
  {
    var gene := genes[k];
    var drawn := MutatedActivity(props, gene, draws, pos);
    var activity := drawn.0;
    var p := drawn.1;
    if gene.start > 0 && draws(p) < props.mutationRate then
      if k == 0 then None
      else
        var adjustment := TimeAdjustment(genes[k - 1].start + 1, gene.start,
                                         NextStart(genes, k, props.totalDuration), draws(p + 1));
        Some((Gene(gene.start + adjustment, activity), p + 2))
    else if gene.start > 0 then Some((Gene(gene.start, activity), p + 1))
    else Some((Gene(gene.start, activity), p))
  }

  /** A map callback that also threads the draw position: (index, position) to
      the copy and the next position, or None when it throws. */
  type Step = (nat, nat) -> Option<(Gene, nat)>

  /** The first n copies made by `step`, starting at draw position `pos`; the
      first copy that throws makes the whole map throw. */
  function MapCopies(step: Step, n: nat, pos: nat): (r: Option<(seq<Gene>, nat)>)
    ensures r.Some? ==> |r.value.0| == n
  {
    if n == 0 then Some(([], pos))
    else
      var prev := MapCopies(step, n - 1, pos);
      if prev.None? then None
      else
        var copy := step(n - 1, prev.value.1);
        if copy.None? then None else Some((prev.value.0 + [copy.value.0], copy.value.1))
  }

  /** The mutation callback over the original list of periods. */
  function CopyStep(props: MutationProps, genes: seq<Gene>, draws: Draws): Step {
    (k: nat, p: nat) => if k < |genes| && IsDraw(draws(p + 1)) then MutateGene(props, genes, k, draws, p) else None
  }

  /** mutationFunction(props)(phenotype) with the draws used, or None when it throws. */
  function Mutated(props: MutationProps, ph: Phenotype, draws: Draws, pos: nat): Option<(Phenotype, nat)> {
    var copies := MapCopies(CopyStep(props, ph.periods, draws), |ph.periods|, pos);
    if copies.None? then None
    else Some((Phenotype(copies.value.0, ph.excessPvEnergyUse), copies.value.1))
  }

  /** The map over the periods as a loop carrying the draw position. */
  method MutationFunction(props: MutationProps, ph: Phenotype, draws: Draws, pos: nat)
    returns (result: Option<Phenotype>, next: nat)
    requires ValidDraws(draws)
    ensures Mutated(props, ph, draws, pos) == if result.Some? then Some((result.value, next)) else None
  {
    ghost var step := CopyStep(props, ph.periods, draws);
    var periods: seq<Gene> := [];
    next := pos;
    for i := 0 to |ph.periods|
      invariant MapCopies(step, i, pos) == Some((periods, next))
    {
      var m := MutateGene(props, ph.periods, i, draws, next);
      CopyStepIsMutateGene(props, ph.periods, draws, i, next);
      MapCopiesStep(step, i, pos);
      if m.None? {
        result := None;
        MapCopiesFailureSticks(step, i + 1, |ph.periods|, pos);
        return;
      }
      periods := periods + [m.value.0];
      next := m.value.1;
    }
    result := Some(Phenotype(periods, ph.excessPvEnergyUse));
  }

  /** One more index: the map grows by the copy at index n, or fails with it. */
  lemma MapCopiesStep(step: Step, n: nat, pos: nat)
    requires MapCopies(step, n, pos).Some?
    ensures var prev := MapCopies(step, n, pos).value;
            var copy := step(n, prev.1);
            MapCopies(step, n + 1, pos) ==
              if copy.None? then None else Some((prev.0 + [copy.value.0], copy.value.1))
  {
  }

  /** Once a copy throws, every longer map throws. */
  lemma {:induction false} MapCopiesFailureSticks(step: Step, n: nat, m: nat, pos: nat)
    requires n <= m
    requires MapCopies(step, n, pos).None?
    ensures MapCopies(step, m, pos).None?
    decreases m - n
  {
    if n < m {
      MapCopiesFailureSticks(step, n + 1, m, pos);
    }
  }

  /** Copy k of a successful map is what `step` makes of index k at the position
      the first k copies leave. */
  lemma {:induction false} MapCopiesElements(step: Step, n: nat, pos: nat)
    requires MapCopies(step, n, pos).Some?
    ensures forall k :: 0 <= k < n ==>
              MapCopies(step, k, pos).Some? &&
              step(k, MapCopies(step, k, pos).value.1).Some? &&
              MapCopies(step, n, pos).value.0[k] == step(k, MapCopies(step, k, pos).value.1).value.0
  {
    if n > 0 {
      var prev := MapCopies(step, n - 1, pos);
      MapCopiesElements(step, n - 1, pos);
      assert prev.Some?;
      var out := MapCopies(step, n, pos).value.0;
      assert out == prev.value.0 + [step(n - 1, prev.value.1).value.0];
      forall k | 0 <= k < n - 1 ensures out[k] == prev.value.0[k] { }
    }
  }

  /** Under valid draws the callback at a real index is MutateGene. */
  lemma CopyStepIsMutateGene(props: MutationProps, genes: seq<Gene>, draws: Draws, k: nat, p: nat)
    requires ValidDraws(draws) && k < |genes|
    ensures CopyStep(props, genes, draws)(k, p) == MutateGene(props, genes, k, draws, p)
  {
    assert IsDraw(draws(p + 1));
  }

  // ---------------------------------------------------------------------
  // Properties of one copy
  // ---------------------------------------------------------------------

  /** A redrawn activity differs from the old one and is not Charge where charging
      is restricted at base date + gene.start; one not redrawn is the old one. */
  lemma ActivityResample(props: MutationProps, genes: seq<Gene>, k: nat, draws: Draws, pos: nat)
    requires k < |genes| && ValidDraws(draws)
    requires MutateGene(props, genes, k, draws, pos).Some?
    ensures var g := MutateGene(props, genes, k, draws, pos).value.0;
            if draws(pos) < props.mutationRate then
              g.activity != genes[k].activity &&
              (RestrictedAt(Some(props.calendar(genes[k].start)), props.chargingRestrictions) ==> g.activity != Charge)
            else g.activity == genes[k].activity
  {
    var drawn := MutatedActivity(props, genes[k], draws, pos);
    assert MutateGene(props, genes, k, draws, pos).value.0.activity == drawn.0;
  }

  /** A period starting at 0 keeps its start; when neither rate draw fires the
      period is copied unchanged. */
  lemma StartKeptOrUnchanged(props: MutationProps, genes: seq<Gene>, k: nat, draws: Draws, pos: nat)
    requires k < |genes| && ValidDraws(draws)
    ensures genes[k].start <= 0 ==> MutateGene(props, genes, k, draws, pos).Some? &&
                                    MutateGene(props, genes, k, draws, pos).value.0.start == genes[k].start
    ensures props.mutationRate <= draws(pos) && props.mutationRate <= draws(pos + 1) ==>
              MutateGene(props, genes, k, draws, pos).Some? &&
              MutateGene(props, genes, k, draws, pos).value.0 == genes[k]
  {
  }

  /** The copy fails exactly for a first period that starts after 0 and whose jitter draw fires. */
  lemma MutateGeneFails(props: MutationProps, genes: seq<Gene>, k: nat, draws: Draws, pos: nat)
    requires k < |genes| && ValidDraws(draws)
    ensures MutateGene(props, genes, k, draws, pos).None? <==>
              k == 0 && genes[0].start > 0 && draws(MutatedActivity(props, genes[0], draws, pos).1) < props.mutationRate
  {
  }

  /** Bounds of the new start when period k > 0 is jittered between its neighbours. */
  predicate JitterWithin(genes: seq<Gene>, k: nat, totalDuration: int, newStart: int)
    requires 0 < k < |genes|
  {
    var s := genes[k].start;
    (0.1 * ((genes[k - 1].start + 1 - s) as real)).Floor <= newStart - s &&
    ((newStart - s) as real) < 0.1 * ((NextStart(genes, k, totalDuration) - s) as real)
  }

  /** The jitter is bounded by a tenth of the distance to the original neighbours
      (totalDuration standing in for a missing next one); an unjittered start
      satisfies the same bounds with adjustment 0. */
  lemma JitterBounds(props: MutationProps, genes: seq<Gene>, k: nat, draws: Draws, pos: nat)
    requires 0 < k < |genes| && ValidDraws(draws)
    requires ValidSchedule(genes, props.totalDuration)
    ensures MutateGene(props, genes, k, draws, pos).Some?
    ensures JitterWithin(genes, k, props.totalDuration, MutateGene(props, genes, k, draws, pos).value.0.start)
  {
    var s := genes[k].start;
    var low := genes[k - 1].start + 1;
    var high := NextStart(genes, k, props.totalDuration);
    assert low <= s < high;
    var p := MutatedActivity(props, genes[k], draws, pos).1;
    StartOfCopy(props, genes, k, draws, pos);
    if s > 0 && draws(p) < props.mutationRate {
      TimeAdjustmentBounds(low, s, high, draws(p + 1));
    } else {
      assert (0.1 * ((low - s) as real)).Floor <= 0;
    }
  }

  /** The start of copy k > 0: its old start, moved by timeAdjustment when the
      start is positive and the second rate draw fires. */
  lemma StartOfCopy(props: MutationProps, genes: seq<Gene>, k: nat, draws: Draws, pos: nat)
    requires 0 < k < |genes| && IsDraw(draws(pos + 1))
    ensures MutateGene(props, genes, k, draws, pos).Some?
    ensures var p := MutatedActivity(props, genes[k], draws, pos).1;
            var s := genes[k].start;
            MutateGene(props, genes, k, draws, pos).value.0.start ==
              if s > 0 && draws(p) < props.mutationRate
              then s + TimeAdjustment(genes[k - 1].start + 1, s, NextStart(genes, k, props.totalDuration), draws(p + 1))
              else s
  {
  }

  // ---------------------------------------------------------------------
  // Order is preserved
  // ---------------------------------------------------------------------

  /** Two neighbours a < b, the left moved by j1 < 0.1 * (b - a), the right by
      j2 >= floor(0.1 * (a + 1 - b)), stay in order. */
  lemma NeighboursStayOrdered(a: int, b: int, j1: int, j2: int)
    requires a < b
    requires (j1 as real) < 0.1 * ((b - a) as real)
    requires (0.1 * ((a + 1 - b) as real)).Floor <= j2
    ensures a + j1 < b + j2
  {
    var d := b - a;
    if d == 1 {
      assert (0.1 * ((a + 1 - b) as real)).Floor == 0;
    } else {
      assert (j2 as real) > 0.1 * ((a + 1 - b) as real) - 1.0;
    }
  }

  /** A map whose every copy succeeds succeeds. */
  lemma {:induction false} MapCopiesNeverFails(step: Step, n: nat, pos: nat)
    requires forall k: nat, p: nat :: k < n ==> step(k, p).Some?
    ensures MapCopies(step, n, pos).Some?
  {
    if n > 0 {
      MapCopiesNeverFails(step, n - 1, pos);
    }
  }

  /** The copy of period k of a valid schedule succeeds; the first keeps start 0
      and every other one stays within its jitter bounds. */
  lemma CopyOfValidSchedule(props: MutationProps, genes: seq<Gene>, draws: Draws, k: nat, p: nat)
    requires ValidDraws(draws) && k < |genes|
    requires ValidSchedule(genes, props.totalDuration)
    ensures CopyStep(props, genes, draws)(k, p).Some?
    ensures k == 0 ==> CopyStep(props, genes, draws)(k, p).value.0.start == 0
    ensures k > 0 ==> JitterWithin(genes, k, props.totalDuration, CopyStep(props, genes, draws)(k, p).value.0.start)
  {
    CopyStepIsMutateGene(props, genes, draws, k, p);
    if k == 0 {
      StartKeptOrUnchanged(props, genes, 0, draws, p);
    } else {
      JitterBounds(props, genes, k, draws, p);
    }
  }

  /** Mutating a valid schedule never throws, keeps the number and order of the
      periods and the policy, and yields a valid schedule again: the first start
      stays 0, starts stay strictly increasing and below totalDuration. */
  lemma MutationKeepsSchedule(props: MutationProps, ph: Phenotype, draws: Draws, pos: nat)
    requires ValidDraws(draws)
    requires ValidSchedule(ph.periods, props.totalDuration)
    ensures Mutated(props, ph, draws, pos).Some?
    ensures var out := Mutated(props, ph, draws, pos).value.0;
            |out.periods| == |ph.periods| &&
            out.excessPvEnergyUse == ph.excessPvEnergyUse &&
            ValidSchedule(out.periods, props.totalDuration)
  {
    var genes := ph.periods;
    var n := |genes|;
    var T := props.totalDuration;
    var step := CopyStep(props, genes, draws);
    forall k: nat, p: nat | k < n ensures step(k, p).Some? {
      CopyOfValidSchedule(props, genes, draws, k, p);
    }
    MapCopiesNeverFails(step, n, pos);
    MapCopiesElements(step, n, pos);
    var out := MapCopies(step, n, pos).value.0;
    forall k | 0 <= k < n
      ensures k == 0 ==> out[k].start == 0
      ensures k > 0 ==> JitterWithin(genes, k, T, out[k].start)
    {
      CopyOfValidSchedule(props, genes, draws, k, MapCopies(step, k, pos).value.1);
    }
    // each start moves by j with floor(0.1 * (prev + 1 - s)) <= j < 0.1 * (next - s)
    forall k | 0 <= k < n - 1 ensures out[k].start < out[k + 1].start {
      var a := genes[k].start;
      var b := genes[k + 1].start;
      assert a < b;
      if k == 0 {
        NeighboursStayOrdered(a, b, 0, out[k + 1].start - b);
      } else {
        NeighboursStayOrdered(a, b, out[k].start - a, out[k + 1].start - b);
      }
    }
    ChainIncreasing(out);
    if n > 0 {
      var s := genes[n - 1].start;
      assert s < T;
      if n - 1 > 0 {
        assert ((out[n - 1].start - s) as real) < 0.1 * ((T - s) as real);
      }
    }
  }

  /** Adjacent increase gives strict increase throughout. */
  lemma ChainIncreasing(out: seq<Gene>)
    requires forall k :: 0 <= k < |out| - 1 ==> out[k].start < out[k + 1].start
    ensures forall i, j :: 0 <= i < j < |out| ==> out[i].start < out[j].start
    ensures forall i :: 0 <= i < |out| ==> out[i].start <= out[|out| - 1].start
  {
    forall i, j | 0 <= i < j < |out| ensures out[i].start < out[j].start {
      ChainStep(out, i, j);
    }
  }

  lemma {:induction false} ChainStep(out: seq<Gene>, i: nat, j: nat)
    requires forall k :: 0 <= k < |out| - 1 ==> out[k].start < out[k + 1].start
    requires i < j < |out|
    ensures out[i].start < out[j].start
    decreases j - i
  {
    if i + 1 < j {
      ChainStep(out, i + 1, j);
    }
  }

  /** With no rate draw below mutationRate (in particular mutationRate <= 0)
      the periods are copied unchanged. */
  lemma MutationIdentityBelowRate(props: MutationProps, ph: Phenotype, draws: Draws, pos: nat)
    requires ValidDraws(draws)
    requires forall i: nat :: props.mutationRate <= draws(i)
    ensures Mutated(props, ph, draws, pos).Some?
    ensures Mutated(props, ph, draws, pos).value.0 == ph
  {
    var genes := ph.periods;
    var step := CopyStep(props, genes, draws);
    forall k: nat, p: nat | k < |genes| ensures step(k, p) == Some((genes[k], step(k, p).value.1)) {
      CopyStepIsMutateGene(props, genes, draws, k, p);
      StartKeptOrUnchanged(props, genes, k, draws, p);
    }
    MapCopiesNeverFails(step, |genes|, pos);
    MapCopiesElements(step, |genes|, pos);
    var out := MapCopies(step, |genes|, pos).value.0;
    assert forall k :: 0 <= k < |genes| ==> out[k] == genes[k];
  }

  // ---------------------------------------------------------------------
  // The source's example
  // ---------------------------------------------------------------------

  /** The draws of the source's example: Math.random() always returns 0.4. */
  ghost predicate ConstantDraws(draws: Draws) {
    forall i: nat :: draws(i) == 0.4
  }

  /** Period (0, Charge): the activity draw picks index floor(0.4 * 2) = 0 of
      [Discharge, Idle]; start 0 is not jittered. */
  lemma GoldenFirstCopy(calendar: Calendar, draws: Draws)
    requires ConstantDraws(draws)
    ensures MutateGene(MutationProps(120, 1.0, calendar, None), [Gene(0, Charge), Gene(90, Discharge)], 0, draws, 0)
            == Some((Gene(0, Discharge), 2))
  {
    var props := MutationProps(120, 1.0, calendar, None);
    var gene := Gene(0, Charge);
    assert draws(0) == 0.4 && draws(1) == 0.4;
    DrawIndexSlot(0.4, 0, 2);
    assert Admissible(Some(Charge), Some(calendar(0)), None) == [Discharge, Idle];
    assert MutatedActivity(props, gene, draws, 0) == (Discharge, 2);
  }

  /** Period (90, Discharge): index 0 of [Idle, Charge], then
      random(-8.9, 3) = floor(0.4 * 11.9 - 8.9) = floor(-4.14) = -5. */
  lemma GoldenSecondCopy(calendar: Calendar, draws: Draws)
    requires ConstantDraws(draws)
    ensures MutateGene(MutationProps(120, 1.0, calendar, None), [Gene(0, Charge), Gene(90, Discharge)], 1, draws, 2)
            == Some((Gene(85, Idle), 6))
  {
    var props := MutationProps(120, 1.0, calendar, None);
    var gene := Gene(90, Discharge);
    assert draws(2) == 0.4 && draws(3) == 0.4 && draws(4) == 0.4 && draws(5) == 0.4;
    DrawIndexSlot(0.4, 0, 2);
    assert Admissible(Some(Discharge), Some(calendar(90)), None) == [Idle, Charge];
    assert MutatedActivity(props, gene, draws, 2) == (Idle, 4);
    assert Scaled(0.4, 11.9) == 4.76;
    assert TimeAdjustment(1, 90, 120, 0.4) == -5;
  }

  /** Every draw 0.4, mutationRate 1, totalDuration 120, no restrictions:
      [(0, Charge), (90, Discharge)] becomes [(0, Discharge), (85, Idle)]. */
  lemma GoldenMutation(calendar: Calendar, draws: Draws)
    requires ConstantDraws(draws)
    ensures var props := MutationProps(120, 1.0, calendar, None);
            var genes := [Gene(0, Charge), Gene(90, Discharge)];
            Mutated(props, Phenotype(genes, FeedToGrid), draws, 0) ==
              Some((Phenotype([Gene(0, Discharge), Gene(85, Idle)], FeedToGrid), 6))
  {
    var props := MutationProps(120, 1.0, calendar, None);
    var genes := [Gene(0, Charge), Gene(90, Discharge)];
    assert ValidDraws(draws) by {
      forall i: nat ensures IsDraw(draws(i)) { assert draws(i) == 0.4; }
    }
    GoldenFirstCopy(calendar, draws);
    GoldenSecondCopy(calendar, draws);
    CopyStepIsMutateGene(props, genes, draws, 0, 0);
    CopyStepIsMutateGene(props, genes, draws, 1, 2);
    MapTwoCopies(CopyStep(props, genes, draws), 0, Gene(0, Discharge), 2, Gene(85, Idle), 6);
  }

  /** The map over two periods: the first copy, then the second from where the first left off. */
  lemma MapTwoCopies(step: Step, pos: nat, g1: Gene, p1: nat, g2: Gene, p2: nat)
    requires step(0, pos) == Some((g1, p1)) && step(1, p1) == Some((g2, p2))
    ensures MapCopies(step, 2, pos) == Some(([g1, g2], p2))
  {
    assert MapCopies(step, 0, pos) == Some(([], pos));
    assert [] + [g1] == [g1];
    assert MapCopies(step, 1, pos) == Some(([g1], p1));
    assert [g1] + [g2] == [g1, g2];
  }
}
