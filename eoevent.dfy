/**
  A natural event reported by NASA's Earth Observatory Natural Event Tracker.
  Only what the screens use is kept: the identifier, the texts, the
  identifiers of the categories the event belongs to, and its date, given as
  the signed number of whole seconds between the date and now (Foundation's
  `timeIntervalSinceNow`, negative for past dates). The date may be missing.
*/
module EoEvent {
  import opened Optional

  datatype EOEvent = EOEvent(
    identifier: string,
    title: string,
    description: string,
    categories: seq<int>,
    secondsSinceNow: Option<int>)

  /** The identifiers of a list of events (Swift's `contains(where:)` on `identifier`). */
  function Identifiers(events: seq<EOEvent>): (ids: set<string>)
    ensures forall e :: e in events ==> e.identifier in ids
    ensures forall id :: id in ids ==> exists e :: e in events && e.identifier == id
  {
    set e | e in events :: e.identifier
  }

  /** The identifiers of two lists together are those of each. */
  lemma IdentifiersAppend(a: seq<EOEvent>, b: seq<EOEvent>)
    ensures Identifiers(a + b) == Identifiers(a) + Identifiers(b)
  {
    forall id | id in Identifiers(a + b) ensures id in Identifiers(a) + Identifiers(b) {
      var e :| e in a + b && e.identifier == id;
      assert e in a || e in b;
    }
  }
}
