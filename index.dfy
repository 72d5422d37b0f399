/**
 * The top-level page: it owns the list of services, seeds it, and is the only
 * place that changes it, by incrementing the queue of the record a token was
 * issued for.
 */
module Index {
  import opened SavaRecord
  import SavaCard
  import QueueMonitor

  /**
   * `prev.map(sava => sava.id === savaId ? { ...sava, currentQueue: sava.currentQueue + 1 } : sava)`.
   * Every record with the id gains one place in its queue and keeps its other
   * fields; every other record is returned as it was, in the same position.
   * There is no activity or capacity check here.
   */
  function Incremented(savas: seq<Sava>, savaId: string): (updated: seq<Sava>)
    ensures |updated| == |savas|
    ensures forall i :: 0 <= i < |savas| && savas[i].id == savaId ==>
              updated[i] == savas[i].(currentQueue := savas[i].currentQueue + 1)
    ensures forall i :: 0 <= i < |savas| && savas[i].id != savaId ==> updated[i] == savas[i]
  {
    if savas == [] then []
    else
      [if savas[0].id == savaId then savas[0].(currentQueue := savas[0].currentQueue + 1) else savas[0]]
      + Incremented(savas[1..], savaId)
  }

  /** How many records carry the id. */
  function CountId(savas: seq<Sava>, savaId: string): (n: nat)
    ensures n <= |savas|
    ensures n == 0 <==> forall i :: 0 <= i < |savas| ==> savas[i].id != savaId
  {
    if savas == [] then 0
    else (if savas[0].id == savaId then 1 else 0) + CountId(savas[1..], savaId)
  }

  /** With unique ids, an id that is present is carried by exactly one record. */
  lemma {:induction false} CountIdUnique(savas: seq<Sava>, savaId: string, k: nat)
    requires UniqueIds(savas) && k < |savas| && savas[k].id == savaId
    ensures CountId(savas, savaId) == 1
  {
    if k == 0 {
      assert forall i :: 0 <= i < |savas[1..]| ==> savas[1..][i].id != savaId by {
        forall i | 0 <= i < |savas[1..]| ensures savas[1..][i].id != savaId {
          assert savas[1..][i] == savas[i + 1];
        }
      }
    } else {
      CountIdUnique(savas[1..], savaId, k - 1);
    }
  }

  /** An id matching no record leaves the list identical. */
  lemma IncrementUnknownId(savas: seq<Sava>, savaId: string)
    requires forall i :: 0 <= i < |savas| ==> savas[i].id != savaId
    ensures Incremented(savas, savaId) == savas
  {
  }

  /** The total queue grows by the number of records carrying the id. */
  lemma {:induction false} IncrementTotal(savas: seq<Sava>, savaId: string)
    ensures TotalQueue(Incremented(savas, savaId)) == TotalQueue(savas) + CountId(savas, savaId)
  {
    if savas != [] {
      var updated := Incremented(savas, savaId);
      assert updated[1..] == Incremented(savas[1..], savaId);
      IncrementTotal(savas[1..], savaId);
    }
  }

  /** With unique ids, "Total Devotees" grows by exactly one after an increment on an existing id. */
  lemma IncrementGrowsTotalByOne(savas: seq<Sava>, savaId: string, k: nat)
    requires UniqueIds(savas) && k < |savas| && savas[k].id == savaId
    ensures TotalQueue(Incremented(savas, savaId)) == TotalQueue(savas) + 1
  {
    IncrementTotal(savas, savaId);
    CountIdUnique(savas, savaId, k);
  }

  /** Issuing a token never changes the number of active services. */
  lemma {:induction false} IncrementKeepsActiveServices(savas: seq<Sava>, savaId: string)
    ensures |ActiveSavas(Incremented(savas, savaId))| == |ActiveSavas(savas)|
  {
    if savas != [] {
      var updated := Incremented(savas, savaId);
      assert updated[1..] == Incremented(savas[1..], savaId);
      IncrementKeepsActiveServices(savas[1..], savaId);
    }
  }

  /** Ids are not touched, so uniqueness is kept. */
  lemma IncrementKeepsIds(savas: seq<Sava>, savaId: string)
    ensures forall i :: 0 <= i < |savas| ==> Incremented(savas, savaId)[i].id == savas[i].id
    ensures UniqueIds(Incremented(savas, savaId)) <==> UniqueIds(savas)
  {
  }

  /** The increment checks nothing: a full, inactive record is pushed past its capacity all the same. */
  lemma IncrementChecksNothing(s: Sava)
    requires !s.isActive && s.currentQueue == s.maxCapacity
    ensures Incremented([s], s.id) == [s.(currentQueue := s.maxCapacity + 1)]
    ensures !WithinCapacity(Incremented([s], s.id))
  {
  }

  /**
   * When the record the id selects is below capacity and ids are unique, the
   * increment keeps every queue within its capacity.
   */
  lemma GuardedIncrementWithinCapacity(savas: seq<Sava>, savaId: string, k: nat)
    requires UniqueIds(savas) && WithinCapacity(savas)
    requires k < |savas| && savas[k].id == savaId && savas[k].currentQueue < savas[k].maxCapacity
    ensures WithinCapacity(Incremented(savas, savaId))
    ensures Incremented(savas, savaId)[k].currentQueue <= savas[k].maxCapacity
  {
  }

  /** The list the page starts with: four services, distinct ids, no queue above its capacity. */
  function Seed(): (seed: seq<Sava>)
    ensures |seed| == 4 && UniqueIds(seed) && WithinCapacity(seed)
  {
    [ Sava("1", "Darshan", "Main temple darshan for devotees", 500, 234, true, "6:00 AM - 12:00 PM", High),
      Sava("2", "Abhishekam", "Special abhishekam ceremony", 100, 67, true, "9:00 AM - 11:00 AM", Medium),
      Sava("3", "Prasadam", "Blessed food distribution", 1000, 123, true, "12:00 PM - 6:00 PM", Low),
      Sava("4", "Evening Aarti", "Evening prayer ceremony", 300, 45, false, "6:00 PM - 8:00 PM", Medium) ]
  }

  /** On the seed list: 469 devotees in 3 active services. */
  lemma SeedTotals()
    ensures TotalQueue(Seed()) == 469 && |ActiveSavas(Seed())| == 3
  {
    var s := Seed();
    assert s[1..][1..][1..][1..] == [];
  }

  /** The Abhishekam queue is at 67 percent, Moderate, and an increment takes it to 68. */
  lemma SeedAbhishekam()
    ensures QueueMonitor.StatusText(CapacityPercentage(Seed()[1])) == QueueMonitor.Moderate
    ensures Incremented(Seed(), "2")[1].currentQueue == 68
  {
  }

  /** The computed average wait on the seed list is 294 minutes. */
  lemma SeedAverageWait()
    ensures QueueMonitor.AverageWait(Seed()) == Some(294)
  {
    var s := Seed();
    assert s[1..][1..][1..][1..] == [];
    assert QueueMonitor.SumWaits(s[1..][1..][1..]) == 113;
    assert QueueMonitor.SumWaits(s[1..][1..]) == 308 + 113;
    assert QueueMonitor.SumWaits(s[1..]) == 168 + 308 + 113;
    assert QueueMonitor.SumWaits(s) == 585 + 168 + 308 + 113;
  }

  /** The page's state: the list of services that every component reads. */
  class Store {
    var savas: seq<Sava>

    constructor ()
      ensures savas == Seed()
    {
      savas := Seed();
    }

    /**
     * `handleGenerateToken(savaId)`: the list becomes its map-increment
     * (IncrementTotal, IncrementKeepsActiveServices and IncrementKeepsIds say
     * what that does to the totals and the ids).
     */
    method HandleGenerateToken(savaId: string)
      modifies this
      ensures savas == Incremented(old(savas), savaId)
    {
      savas := Incremented(savas, savaId);
    }

    /**
     * A click on the k-th service card's button. The button is disabled for an
     * inactive or full service; otherwise the click issues for that card's id.
     * With unique ids, no queue goes above its capacity this way.
     */
    method GenerateFromCard(k: nat) returns (fired: bool)
      requires k < |savas|
      modifies this
      ensures fired <==> !SavaCard.ButtonDisabled(old(savas)[k])
      ensures savas == if fired then Incremented(old(savas), old(savas)[k].id) else old(savas)
      ensures UniqueIds(old(savas)) && WithinCapacity(old(savas)) ==> WithinCapacity(savas)
    {
      fired := !SavaCard.ButtonDisabled(savas[k]);
      if fired {
        if UniqueIds(savas) && WithinCapacity(savas) {
          GuardedIncrementWithinCapacity(savas, savas[k].id, k);
        }
        HandleGenerateToken(savas[k].id);
      }
    }
  }
}
