/** The consumed-events table (events/ConsumedEventRecorder.java, events/ConsumedEventEntity.java):
    one row per delivery a consumer has processed, with a unique constraint on the pair
    (consumer name, event id). recordIfNew inserts a row and reports whether the constraint let
    it in. Instants are integers; the processing time is passed in rather than read from a clock. */
module ConsumedEvents {
  import opened Wrappers

  datatype ConsumedEvent = ConsumedEvent(consumerName: string, eventId: string, eventType: string,
                                         aggregateId: string, occurredAt: Option<int>, processedAt: int)

  /** One call of recordIfNew, with its arguments. */
  datatype Delivery = Delivery(consumerName: string, eventId: string, eventType: string,
                               aggregateId: string, occurredAt: Option<int>, processedAt: int)

  function RowOf(d: Delivery): ConsumedEvent {
    ConsumedEvent(d.consumerName, d.eventId, d.eventType, d.aggregateId, d.occurredAt, d.processedAt)
  }

  /** The unique constraint uk_consumed_events_consumer_event. */
  predicate UniquePairs(rows: seq<ConsumedEvent>) {
    forall i, j :: 0 <= i < j < |rows| ==>
      rows[i].consumerName != rows[j].consumerName || rows[i].eventId != rows[j].eventId
  }

  /** Whether a row for the pair exists, as the constraint checks on insert. */
  function HasPair(rows: seq<ConsumedEvent>, consumerName: string, eventId: string): (r: bool)
    ensures r <==> exists i :: 0 <= i < |rows| && rows[i].consumerName == consumerName && rows[i].eventId == eventId
  {
    if rows == [] then false
    else if rows[0].consumerName == consumerName && rows[0].eventId == eventId then true
    else
      assert forall i :: 1 <= i < |rows| ==> rows[i] == rows[1..][i - 1];
      HasPair(rows[1..], consumerName, eventId)
  }

  /** countByConsumerNameAndEventId. */
  function CountPair(rows: seq<ConsumedEvent>, consumerName: string, eventId: string): nat {
    if rows == [] then 0
    else CountPair(rows[..|rows| - 1], consumerName, eventId)
         + (if rows[|rows| - 1].consumerName == consumerName && rows[|rows| - 1].eventId == eventId then 1 else 0)
  }

  /** recordIfNew: a new pair is stored and reported processed; a pair already present violates
      the constraint, nothing is stored and false is returned. */
  function RecordedIfNew(rows: seq<ConsumedEvent>, d: Delivery): (res: (bool, seq<ConsumedEvent>))
    ensures res.0 <==> !HasPair(rows, d.consumerName, d.eventId)
    ensures res.0 ==> res.1 == rows + [RowOf(d)]
    ensures !res.0 ==> res.1 == rows
    ensures UniquePairs(rows) ==> UniquePairs(res.1)
    ensures HasPair(res.1, d.consumerName, d.eventId)
  {
    if HasPair(rows, d.consumerName, d.eventId) then (false, rows)
    else
      var next := rows + [RowOf(d)];
      assert next[|rows|] == RowOf(d);
      (true, next)
  }

  /** The pair alone decides: a repeat with any other event type, aggregate, occurrence or
      processing time is a duplicate and stores nothing. */
  lemma DuplicateIgnoresOtherFields(rows: seq<ConsumedEvent>, first: Delivery, again: Delivery)
    requires again.consumerName == first.consumerName && again.eventId == first.eventId
    ensures RecordedIfNew(RecordedIfNew(rows, first).1, again) == (false, RecordedIfNew(rows, first).1)
  {
  }

  /** The same event id under another consumer name is a different pair and is recorded. */
  lemma OtherConsumerRecordedSeparately(rows: seq<ConsumedEvent>, first: Delivery, other: Delivery)
    requires other.eventId == first.eventId && other.consumerName != first.consumerName
    requires !HasPair(rows, other.consumerName, other.eventId)
    ensures RecordedIfNew(RecordedIfNew(rows, first).1, other).0
  {
    var after := RecordedIfNew(rows, first).1;
    forall i | 0 <= i < |after|
      ensures after[i].consumerName != other.consumerName || after[i].eventId != other.eventId
    {
      assert i < |rows| || after[i] == RowOf(first);
    }
  }

  /** Under the constraint a pair has at most one row. */
  lemma {:induction false} UniqueCountAtMostOne(rows: seq<ConsumedEvent>, consumerName: string, eventId: string)
    requires UniquePairs(rows)
    ensures CountPair(rows, consumerName, eventId) == if HasPair(rows, consumerName, eventId) then 1 else 0
  {
    if rows != [] {
      var prefix := rows[..|rows| - 1];
      var last := rows[|rows| - 1];
      assert UniquePairs(prefix);
      UniqueCountAtMostOne(prefix, consumerName, eventId);
      assert forall i :: 0 <= i < |prefix| ==> rows[i] == prefix[i];
      if last.consumerName == consumerName && last.eventId == eventId {
        assert !HasPair(prefix, consumerName, eventId);
      }
    }
  }

  /** recordIfNew never removes a row: a pair present before is present after. */
  lemma RecordKeepsPairs(rows: seq<ConsumedEvent>, d: Delivery, consumerName: string, eventId: string)
    requires HasPair(rows, consumerName, eventId)
    ensures HasPair(RecordedIfNew(rows, d).1, consumerName, eventId)
  {
    var i :| 0 <= i < |rows| && rows[i].consumerName == consumerName && rows[i].eventId == eventId;
    assert RecordedIfNew(rows, d).1[i] == rows[i];
  }

  /** The table after a series of deliveries, the last one last. */
  function Run(rows: seq<ConsumedEvent>, deliveries: seq<Delivery>): seq<ConsumedEvent>
  {
    if deliveries == [] then rows
    else RecordedIfNew(Run(rows, deliveries[..|deliveries| - 1]), deliveries[|deliveries| - 1]).1
  }

  /** However often events are redelivered, every delivered pair ends up with exactly one row. */
  lemma {:induction false} RunRecordsEachPairOnce(rows: seq<ConsumedEvent>, deliveries: seq<Delivery>)
    requires UniquePairs(rows)
    ensures UniquePairs(Run(rows, deliveries))
    ensures forall d :: d in deliveries ==> CountPair(Run(rows, deliveries), d.consumerName, d.eventId) == 1
  {
    if deliveries != [] {
      var prefix := deliveries[..|deliveries| - 1];
      var last := deliveries[|deliveries| - 1];
      RunRecordsEachPairOnce(rows, prefix);
      var before := Run(rows, prefix);
      var after := Run(rows, deliveries);
      assert after == RecordedIfNew(before, last).1;
      forall d | d in deliveries
        ensures CountPair(after, d.consumerName, d.eventId) == 1
      {
        if d != last {
          assert d in prefix;
          UniqueCountAtMostOne(before, d.consumerName, d.eventId);
          RecordKeepsPairs(before, last, d.consumerName, d.eventId);
        }
        UniqueCountAtMostOne(after, d.consumerName, d.eventId);
      }
    }
  }

  class ConsumedEventRecorder {
    var rows: seq<ConsumedEvent>
    /** Every call made to recordIfNew, in order. */
    ghost var calls: seq<Delivery>

    ghost predicate Valid()
      reads this
    {
      UniquePairs(rows)
    }

    constructor()
      ensures Valid() && rows == [] && calls == []
    {
      rows := [];
      calls := [];
    }

    method RecordIfNew(consumerName: string, eventId: string, eventType: string, aggregateId: string,
                       occurredAt: Option<int>, processedAt: int) returns (processed: bool)
      requires Valid()
      modifies this
      ensures Valid()
      ensures var d := Delivery(consumerName, eventId, eventType, aggregateId, occurredAt, processedAt);
        && (processed, rows) == RecordedIfNew(old(rows), d)
        && calls == old(calls) + [d]
    {
      var d := Delivery(consumerName, eventId, eventType, aggregateId, occurredAt, processedAt);
      calls := calls + [d];
      if HasPair(rows, consumerName, eventId) {
        return false;
      }
      rows := rows + [RowOf(d)];
      processed := true;
    }
  }
}
