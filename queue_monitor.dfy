/**
 * The queue monitor: the wait-time heuristic, the status bands and their
 * colours, the per-card capacity alert and the summary statistics.
 */
module QueueMonitor {
  import opened SavaRecord
  import SavaCard

  /**
   * `getWaitTime`: `Math.ceil(queueLength * 2.5)`, 2.5 minutes per person,
   * rounded up to a whole minute.
   */
  function WaitTime(queueLength: nat): (minutes: nat)
    ensures 5 * queueLength <= 2 * minutes < 5 * queueLength + 2
  {
    (5 * queueLength + 1) / 2
  }

  /** A longer queue never gives a shorter wait. */
  lemma WaitTimeMonotone(shorter: nat, longer: nat)
    requires shorter <= longer
    ensures WaitTime(shorter) <= WaitTime(longer)
  {
  }

  lemma WaitTimeExamples()
    ensures WaitTime(0) == 0 && WaitTime(1) == 3 && WaitTime(4) == 10
  {
  }

  datatype Status = Critical | Busy | Moderate | Light

  /** How heavy a status is, from Light (0) to Critical (3). */
  function Severity(st: Status): nat
  {
    match st
    case Light => 0
    case Moderate => 1
    case Busy => 2
    case Critical => 3
  }

  function Reached(p: Percent, t: nat): nat
  {
    if AtLeast(p, t) then 1 else 0
  }

  /**
   * `getStatusText`: the first band whose lower bound (90, 70, 30) the
   * percentage reaches. Because the bands are nested, the label's severity is
   * the number of thresholds reached.
   */
  function StatusText(p: Percent): (st: Status)
    ensures Severity(st) == Reached(p, 30) + Reached(p, 70) + Reached(p, 90)
  {
    if AtLeast(p, 90) then Critical
    else if AtLeast(p, 70) then Busy
    else if AtLeast(p, 30) then Moderate
    else Light
  }

  /** A higher percentage never gives a lighter label. */
  lemma StatusTextMonotone(p: Percent, q: Percent)
    requires Le(p, q)
    ensures Severity(StatusText(p)) <= Severity(StatusText(q))
  {
    if AtLeast(p, 30) { AtLeastMonotone(p, q, 30); }
    if AtLeast(p, 70) { AtLeastMonotone(p, q, 70); }
    if AtLeast(p, 90) { AtLeastMonotone(p, q, 90); }
  }

  /** The band edges: each band includes its lower bound. */
  lemma StatusBandEdges()
    ensures StatusText(Percent(29999, 1000)) == Light
    ensures StatusText(Percent(30, 1)) == Moderate
    ensures StatusText(Percent(69999, 1000)) == Moderate
    ensures StatusText(Percent(70, 1)) == Busy
    ensures StatusText(Percent(89999, 1000)) == Busy
    ensures StatusText(Percent(90, 1)) == Critical
  {
  }

  /** `getStatusColor`: red for Critical, yellow for Busy, green for the two lighter labels. */
  function StatusColour(p: Percent): (c: Colour)
    ensures c == Red <==> StatusText(p) == Critical
    ensures c == Yellow <==> StatusText(p) == Busy
    ensures c == Green <==> StatusText(p) == Moderate || StatusText(p) == Light
  {
    if AtLeast(p, 90) then Red
    else if AtLeast(p, 70) then Yellow
    else Green
  }

  /** The status badge's colour, chosen by its own inline conditional, agrees with `getStatusColor`. */
  function BadgeColour(p: Percent): (c: Colour)
    ensures c == StatusColour(p)
  {
    if AtLeast(p, 90) then Red
    else if AtLeast(p, 70) then Yellow
    else Green
  }

  /** The card's "Queue approaching capacity!" alert shows exactly for a Critical queue. */
  function CapacityAlert(s: Sava): (shown: bool)
    ensures shown <==> StatusText(CapacityPercentage(s)) == Critical
    ensures shown <==> SavaCard.NearlyFullAlert(s)
  {
    AtLeast(CapacityPercentage(s), 90)
  }

  /**
   * The priority text colour on a monitor card: red, yellow, else green. On
   * every priority a record can hold it agrees with the service card's badge.
   */
  function PriorityTextColour(p: Priority): (c: Colour)
    ensures c == SavaCard.PriorityColour(PriorityName(p))
  {
    if p == High then Red
    else if p == Medium then Yellow
    else Green
  }

  /**
   * The total wait over all services, each rounded up on its own: at least 2.5
   * minutes per queued person and at most half a minute more per service.
   */
  function SumWaits(savas: seq<Sava>): (total: nat)
    ensures 5 * TotalQueue(savas) <= 2 * total <= 5 * TotalQueue(savas) + |savas|
  {
    if savas == [] then 0 else WaitTime(savas[0].currentQueue) + SumWaits(savas[1..])
  }

  /** The longest per-service wait. */
  function MaxWait(savas: seq<Sava>): (m: nat)
    requires savas != []
    ensures exists i :: 0 <= i < |savas| && WaitTime(savas[i].currentQueue) == m
    ensures forall i :: 0 <= i < |savas| ==> WaitTime(savas[i].currentQueue) <= m
  {
    if |savas| == 1 then WaitTime(savas[0].currentQueue)
    else
      var rest := MaxWait(savas[1..]);
      if WaitTime(savas[0].currentQueue) >= rest then WaitTime(savas[0].currentQueue)
      else
        var k :| 0 <= k < |savas[1..]| && WaitTime(savas[1..][k].currentQueue) == rest;
        assert WaitTime(savas[k + 1].currentQueue) == rest;
        rest
  }

  /** The shortest per-service wait. */
  function MinWait(savas: seq<Sava>): (m: nat)
    requires savas != []
    ensures exists i :: 0 <= i < |savas| && WaitTime(savas[i].currentQueue) == m
    ensures forall i :: 0 <= i < |savas| ==> m <= WaitTime(savas[i].currentQueue)
  {
    if |savas| == 1 then WaitTime(savas[0].currentQueue)
    else
      var rest := MinWait(savas[1..]);
      if WaitTime(savas[0].currentQueue) <= rest then WaitTime(savas[0].currentQueue)
      else
        var k :| 0 <= k < |savas[1..]| && WaitTime(savas[1..][k].currentQueue) == rest;
        assert WaitTime(savas[k + 1].currentQueue) == rest;
        rest
  }

  lemma MulSucc(n: nat, b: nat)
    ensures (n + 1) * b == b + n * b
  {
  }

  lemma {:induction false} SumWaitsAtMost(savas: seq<Sava>, bound: nat)
    requires forall i :: 0 <= i < |savas| ==> WaitTime(savas[i].currentQueue) <= bound
    ensures SumWaits(savas) <= |savas| * bound
  {
    if savas != [] {
      var rest := savas[1..];
      forall i | 0 <= i < |rest| ensures WaitTime(rest[i].currentQueue) <= bound {
        assert rest[i] == savas[i + 1];
      }
      SumWaitsAtMost(rest, bound);
      assert SumWaits(savas) == WaitTime(savas[0].currentQueue) + SumWaits(rest);
      MulSucc(|rest|, bound);
    }
  }

  lemma {:induction false} SumWaitsAtLeast(savas: seq<Sava>, bound: nat)
    requires forall i :: 0 <= i < |savas| ==> bound <= WaitTime(savas[i].currentQueue)
    ensures |savas| * bound <= SumWaits(savas)
  {
    if savas != [] {
      var rest := savas[1..];
      forall i | 0 <= i < |rest| ensures bound <= WaitTime(rest[i].currentQueue) {
        assert rest[i] == savas[i + 1];
      }
      SumWaitsAtLeast(rest, bound);
      assert SumWaits(savas) == WaitTime(savas[0].currentQueue) + SumWaits(rest);
      MulSucc(|rest|, bound);
    }
  }

  /**
   * "Avg Wait": `Math.ceil(total wait / savas.length)`. On an empty list the
   * monitor divides 0 by 0 and shows NaN; here there is no average at all.
   */
  function AverageWait(savas: seq<Sava>): (avg: Option<nat>)
    ensures avg.None? <==> savas == []
    ensures avg.Some? ==> |savas| * (avg.value - 1) < SumWaits(savas) <= |savas| * avg.value
  {
    if savas == [] then None
    else
      var n := |savas|;
      var a := SumWaits(savas);
      var q := (a + n - 1) / n;
      assert n * q + (a + n - 1) % n == a + n - 1;
      assert n * (q - 1) == n * q - n;
      Some(q)
  }

  lemma MulStrict(a: int, b: int, n: nat)
    requires a < b && n > 0
    ensures n * a < n * b
  {
    var k := b - a;
    assert n * b == n * a + n * k;
  }

  /** A rounded-up quotient of a sum lying between n * lo and n * hi lies between lo and hi. */
  lemma CeilBetween(sum: int, n: nat, avg: int, lo: int, hi: int)
    requires n > 0
    requires n * (avg - 1) < sum <= n * avg
    requires n * lo <= sum <= n * hi
    ensures lo <= avg <= hi
  {
    if avg < lo {
      MulStrict(avg, lo, n);
    }
    if hi < avg {
      MulLeft(hi, avg - 1, n);
    }
  }

  /** The average wait of a non-empty list lies between the shortest and the longest wait. */
  lemma AverageWaitBetween(savas: seq<Sava>)
    requires savas != []
    ensures MinWait(savas) <= AverageWait(savas).value <= MaxWait(savas)
  {
    SumWaitsAtMost(savas, MaxWait(savas));
    SumWaitsAtLeast(savas, MinWait(savas));
    CeilBetween(SumWaits(savas), |savas|, AverageWait(savas).value, MinWait(savas), MaxWait(savas));
  }

  /** "Critical Queues": `savas.filter(sava => sava.currentQueue / sava.maxCapacity >= 0.9).length`. */
  function CriticalCount(savas: seq<Sava>): (n: nat)
    ensures n <= |savas|
  {
    if savas == [] then 0
    else (if 10 * savas[0].currentQueue >= 9 * savas[0].maxCapacity then 1 else 0) + CriticalCount(savas[1..])
  }

  /** How many cards show the label st. */
  function StatusCount(savas: seq<Sava>, st: Status): (n: nat)
    ensures n <= |savas|
  {
    if savas == [] then 0
    else (if StatusText(CapacityPercentage(savas[0])) == st then 1 else 0) + StatusCount(savas[1..], st)
  }

  /** In exact arithmetic the "Critical Queues" figure counts exactly the cards labelled Critical. */
  lemma {:induction false} CriticalCountIsStatusCount(savas: seq<Sava>)
    ensures CriticalCount(savas) == StatusCount(savas, Critical)
  {
    if savas != [] {
      CriticalCountIsStatusCount(savas[1..]);
    }
  }

  /** Every card carries exactly one label. */
  lemma {:induction false} StatusCountsPartition(savas: seq<Sava>)
    ensures StatusCount(savas, Critical) + StatusCount(savas, Busy)
          + StatusCount(savas, Moderate) + StatusCount(savas, Light) == |savas|
  {
    if savas != [] {
      StatusCountsPartition(savas[1..]);
    }
  }
}
