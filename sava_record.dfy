/**
 * The `Sava` record that every component of the temple-queue dashboard shares,
 * the exact percentages the components compare against thresholds, and the two
 * aggregates (total queue, active services) that several components show.
 */
module SavaRecord {

  datatype Option<T> = None | Some(value: T)

  /** A strictly positive integer: a service's capacity is fixed at seed time and never zero. */
  type Pos = n: int | n > 0 witness 1

  /** The dashboard's `'high' | 'medium' | 'low'` union. */
  datatype Priority = High | Medium | Low

  /** The colour bands the components pick their Tailwind classes from. */
  datatype Colour = Red | Yellow | Green | Grey

  datatype Sava = Sava(
    id: string,
    name: string,
    description: string,
    maxCapacity: Pos,
    currentQueue: nat,
    isActive: bool,
    timeSlot: string,
    priority: Priority)

  /** The string the dashboard stores for a priority. */
  function PriorityName(p: Priority): string
  {
    match p
    case High => "high"
    case Medium => "medium"
    case Low => "low"
  }

  /**
   * A non-negative rational num / den. The dashboard computes percentages in
   * floating point; here they are exact, and every comparison is a
   * cross-multiplication.
   */
  datatype Percent = Percent(num: nat, den: Pos)

  /** The percentage is at least the whole number t. */
  predicate AtLeast(p: Percent, t: nat)
  {
    p.num >= t * p.den
  }

  /** p <= q as rationals. */
  predicate Le(p: Percent, q: Percent)
  {
    p.num * q.den <= q.num * p.den
  }

  /**
   * `(currentQueue / maxCapacity) * 100`. Reaching 100 percent is the same as
   * the queue having reached the capacity, reaching 90 percent is the same as
   * the ratio reaching 0.9, and the percentage stays at or below 100 exactly
   * when the queue is within capacity.
   */
  function CapacityPercentage(s: Sava): (p: Percent)
    ensures AtLeast(p, 100) <==> s.currentQueue >= s.maxCapacity
    ensures AtLeast(p, 90) <==> 10 * s.currentQueue >= 9 * s.maxCapacity
    ensures Le(p, Percent(100, 1)) <==> s.currentQueue <= s.maxCapacity
  {
    Percent(100 * s.currentQueue, s.maxCapacity)
  }

  lemma MulLeft(a: int, b: int, c: nat)
    requires a <= b
    ensures c * a <= c * b
  {
    var k := b - a;
    assert c * b == c * a + c * k;
  }

  /** For a fixed capacity, the percentage never decreases as the queue grows. */
  lemma CapacityPercentageMonotone(s: Sava, shorter: nat, longer: nat)
    requires shorter <= longer
    ensures Le(CapacityPercentage(s.(currentQueue := shorter)), CapacityPercentage(s.(currentQueue := longer)))
  {
    MulLeft(100 * shorter, 100 * longer, s.maxCapacity);
    assert 100 * shorter * s.maxCapacity == s.maxCapacity * (100 * shorter);
    assert 100 * longer * s.maxCapacity == s.maxCapacity * (100 * longer);
  }

  /** A percentage that has reached a threshold stays above it as it grows. */
  lemma AtLeastMonotone(p: Percent, q: Percent, t: nat)
    requires Le(p, q) && AtLeast(p, t)
    ensures AtLeast(q, t)
  {
    MulLeft(t * p.den, p.num, q.den);
    assert q.den * (t * p.den) == p.den * (t * q.den);
    assert q.den * p.num == p.num * q.den;
    if q.num < t * q.den {
      MulLeft(q.num + 1, t * q.den, p.den);
      assert false;
    }
  }

  /** No two records share an id, so a lookup by id is unambiguous. */
  ghost predicate UniqueIds(savas: seq<Sava>)
  {
    forall i, j :: 0 <= i < j < |savas| ==> savas[i].id != savas[j].id
  }

  /** No record's queue is above its capacity. */
  ghost predicate WithinCapacity(savas: seq<Sava>)
  {
    forall i :: 0 <= i < |savas| ==> savas[i].currentQueue <= savas[i].maxCapacity
  }

  /** `savas.reduce((sum, sava) => sum + sava.currentQueue, 0)`. */
  function TotalQueue(savas: seq<Sava>): (total: nat)
    ensures forall i :: 0 <= i < |savas| ==> savas[i].currentQueue <= total
    ensures savas == [] ==> total == 0
  {
    if savas == [] then 0 else savas[0].currentQueue + TotalQueue(savas[1..])
  }

  /** Summing a concatenation sums the parts: the reduce's order does not matter. */
  lemma {:induction false} TotalQueueConcat(a: seq<Sava>, b: seq<Sava>)
    ensures TotalQueue(a + b) == TotalQueue(a) + TotalQueue(b)
  {
    if a != [] {
      assert (a + b)[1..] == a[1..] + b;
      TotalQueueConcat(a[1..], b);
    } else {
      assert a + b == b;
    }
  }

  /** `savas.filter(sava => sava.isActive)`. */
  function ActiveSavas(savas: seq<Sava>): (active: seq<Sava>)
    ensures |active| <= |savas|
    ensures forall x :: x in active ==> x.isActive && x in savas
    ensures forall x :: x in savas && x.isActive ==> x in active
  {
    if savas == [] then []
    else (if savas[0].isActive then [savas[0]] else []) + ActiveSavas(savas[1..])
  }

  /**
   * The filter keeps the records in their original order: it distributes over
   * concatenation (and ActiveSavasSingleton says what it does to one record).
   */
  lemma {:induction false} ActiveSavasConcat(a: seq<Sava>, b: seq<Sava>)
    ensures ActiveSavas(a + b) == ActiveSavas(a) + ActiveSavas(b)
  {
    if a == [] {
      assert a + b == b;
    } else {
      assert (a + b)[0] == a[0];
      assert (a + b)[1..] == a[1..] + b;
      ActiveSavasConcat(a[1..], b);
    }
  }

  /** On one record the filter keeps it exactly when it is active; together with ActiveSavasConcat this determines the filter. */
  lemma ActiveSavasSingleton(x: Sava)
    ensures ActiveSavas([x]) == if x.isActive then [x] else []
  {
    assert [x][1..] == [];
  }
}
