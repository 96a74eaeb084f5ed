/**
 * The six interface counters `UpdateData` samples, the per-counter deltas between two
 * samples, and the Rx/Tx utilization series that a sequence of samples produces.
 */
module Counters {
  import opened Wrappers
  import opened Utilization

  /**
   * One `ifStats` record. The same shape holds a sample (values decoded from the agent,
   * `big.Int` in Go) and a delta between two samples (which may be negative).
   */
  datatype IfStats = IfStats(
    hcInOctets: int,     // IF-MIB ifHCInOctets
    inDiscards: int,     // IF-MIB ifInDiscards
    inErrors: int,       // IF-MIB ifInErrors
    hcOutOctets: int,    // IF-MIB ifHCOutOctets
    outDiscards: int,    // IF-MIB ifOutDiscards
    outErrors: int)      // IF-MIB ifOutErrors

  const Zero := IfStats(0, 0, 0, 0, 0, 0)

  /** Counter-wise sum, the inverse of taking a delta. */
  function Plus(a: IfStats, b: IfStats): IfStats {
    IfStats(a.hcInOctets + b.hcInOctets, a.inDiscards + b.inDiscards, a.inErrors + b.inErrors,
            a.hcOutOctets + b.hcOutOctets, a.outDiscards + b.outDiscards, a.outErrors + b.outErrors)
  }

  /**
   * The deltas `UpdateData` reports: all zero when there is no previous sample, otherwise
   * the exact `big.Int` difference `current - previous` of each counter, with no
   * correction for a counter that wrapped or was reset.
   */
  function Delta(previous: Option<IfStats>, current: IfStats): (d: IfStats)
    ensures previous.None? ==> d == Zero
    ensures previous.Some? ==> Plus(previous.value, d) == current
  {
    match previous
    case None => Zero
    case Some(p) =>
      IfStats(current.hcInOctets - p.hcInOctets, current.inDiscards - p.inDiscards,
              current.inErrors - p.inErrors, current.hcOutOctets - p.hcOutOctets,
              current.outDiscards - p.outDiscards, current.outErrors - p.outErrors)
  }

  /** A delta is never corrected: it is negative exactly when the counter went down. */
  lemma DeltaNotWrapped(previous: IfStats, current: IfStats)
    ensures var d := Delta(Some(previous), current);
            && (d.hcInOctets < 0 <==> current.hcInOctets < previous.hcInOctets)
            && (d.hcOutOctets < 0 <==> current.hcOutOctets < previous.hcOutOctets)
  {
  }

  /** Which chart a rate feeds: Rx from the inbound octets, Tx from the outbound. */
  datatype Direction = Rx | Tx

  function Octets(s: IfStats, dir: Direction): int {
    match dir
    case Rx => s.hcInOctets
    case Tx => s.hcOutOctets
  }

  /** A committed sample, with the interval `t` that `UpdateData` was called with. */
  datatype Sample = Sample(stats: IfStats, t: int)

  /** The sample before the ones still to come: the last of `history`, if any. */
  function Previous(history: seq<Sample>): Option<IfStats> {
    if history == [] then None else Some(history[|history| - 1].stats)
  }

  predicate PositiveIntervals(history: seq<Sample>) {
    forall i :: 0 <= i < |history| ==> history[i].t > 0
  }

  /**
   * The series one chart holds after the samples of `history` were committed in order,
   * each appending the rate of its delta against the sample before it. Element 0 is 0,
   * and element i > 0 is the rate of the octets between samples i-1 and i.
   */
  function Series(history: seq<Sample>, speedMbps: int, dir: Direction): (r: seq<real>)
    requires speedMbps > 0 && PositiveIntervals(history)
    ensures |r| == |history|
    ensures |history| > 0 ==> r[0] == 0.0
    ensures forall i :: 0 < i < |history| ==>
              r[i] == Rate(Octets(history[i].stats, dir) - Octets(history[i - 1].stats, dir), speedMbps, history[i].t)
  {
    if history == [] then []
    else
      var earlier := history[..|history| - 1];
      var last := history[|history| - 1];
      Series(earlier, speedMbps, dir) + [Rate(Octets(Delta(Previous(earlier), last.stats), dir), speedMbps, last.t)]
  }

  /** The octets carried between the first and the last sample: the sum of the deltas the samples produced. */
  function TotalOctets(history: seq<Sample>, dir: Direction): int {
    if history == [] then 0
    else
      var earlier := history[..|history| - 1];
      TotalOctets(earlier, dir) + Octets(Delta(Previous(earlier), history[|history| - 1].stats), dir)
  }

  /** The deltas telescope: together they account for exactly the change from the first sample to the last. */
  lemma {:induction false} TotalOctetsTelescopes(history: seq<Sample>, dir: Direction)
    requires history != []
    ensures TotalOctets(history, dir) == Octets(history[|history| - 1].stats, dir) - Octets(history[0].stats, dir)
  {
    var earlier := history[..|history| - 1];
    if earlier != [] {
      TotalOctetsTelescopes(earlier, dir);
      assert earlier[0] == history[0];
    }
  }
}
