/** Values shared by the scheduler's components: the activity tags a period
    can carry, the surplus-production policy, and the sparse schedule
    ("phenotype") that population generation creates and mutation perturbs. */
module Types {

  datatype Option<+T> = None | Some(value: T) {
    function GetOr(default: T): T {
      match this
      case Some(v) => v
      case None => default
    }
  }

  datatype Result<+T, +E> = Ok(value: T) | Err(error: E)

  /** The battery's operating mode: -1, 0 and 1 in the source. */
  datatype Activity = Discharge | Idle | Charge

  /** excessPvEnergyUse: 0 (feed surplus production to the grid) or 1 (charge the battery from it).
      The source compares with `== 1`, so every other value behaves as FeedToGrid. */
  datatype PvPolicy = FeedToGrid | ChargeBattery

  /** One element of the period list: a start offset in minutes and an activity. */
  datatype Gene = Gene(start: int, activity: Activity)

  /** A candidate schedule. The source keeps the genes in a doubly linked list;
      here the list is a sequence, and neighbours are found by index. */
  datatype Phenotype = Phenotype(periods: seq<Gene>, excessPvEnergyUse: PvPolicy)

  function Activities(genes: seq<Gene>): (acts: seq<Activity>)
    ensures |acts| == |genes|
    ensures forall k :: 0 <= k < |genes| ==> acts[k] == genes[k].activity
  {
    if |genes| == 0 then [] else [genes[0].activity] + Activities(genes[1..])
  }

  function Starts(genes: seq<Gene>): (starts: seq<int>)
    ensures |starts| == |genes|
    ensures forall k :: 0 <= k < |genes| ==> starts[k] == genes[k].start
  {
    if |genes| == 0 then [] else [genes[0].start] + Starts(genes[1..])
  }

  /** Strictly increasing, hence also free of repeats. */
  predicate StrictlyIncreasing(xs: seq<int>) {
    forall i, j :: 0 <= i < j < |xs| ==> xs[i] < xs[j]
  }

  /** The schedule invariant: the first period starts at 0, starts strictly
      increase, and every start lies before the end of the horizon. */
  predicate ValidSchedule(genes: seq<Gene>, totalDuration: int) {
    (|genes| > 0 ==> genes[0].start == 0) &&
    (forall i, j :: 0 <= i < j < |genes| ==> genes[i].start < genes[j].start) &&
    (forall i :: 0 <= i < |genes| ==> genes[i].start < totalDuration)
  }
}
