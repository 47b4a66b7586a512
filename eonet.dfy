/** The EONET client's own rules: which downloaded events go to a category, category order, queries. */
module Eonet {
  import opened Optional
  import opened Decimal
  import opened Sorting
  import opened EoEvent
  import opened EoCategory

  /** An event is wanted for a category when it lists the category and is not yet attached to it. */
  predicate Wanted(e: EOEvent, c: EOCategory) {
    c.identifier in e.categories && e.identifier !in Identifiers(c.events)
  }

  /** The `filter` step: the wanted events, in input order, each as often as in the input. */
  function Candidates(events: seq<EOEvent>, c: EOCategory): (r: seq<EOEvent>)
    ensures |r| <= |events|
    ensures forall e :: multiset(r)[e] == if Wanted(e, c) then multiset(events)[e] else 0
  {
    if events == [] then []
    else
      assert events == [events[0]] + events[1..];
      (if Wanted(events[0], c) then [events[0]] else []) + Candidates(events[1..], c)
  }

  /** `EONET.filteredEvents`: the wanted events, sorted by the date comparator `less`. */
  function FilteredEvents(events: seq<EOEvent>, c: EOCategory, less: (EOEvent, EOEvent) -> bool): (r: seq<EOEvent>)
    ensures |r| <= |events|
    ensures forall e :: e in r ==> c.identifier in e.categories
    ensures forall e :: e in r ==> e.identifier !in Identifiers(c.events)
    ensures forall e :: multiset(r)[e] == if Wanted(e, c) then multiset(events)[e] else 0
  {
    var r := InsertionSort(less, Candidates(events, c));
    assert forall e :: e in r ==> multiset(r)[e] > 0;
    r
  }

  /** With a strict order as comparator the filtered events come out ordered by it. */
  lemma FilteredEventsSorted(events: seq<EOEvent>, c: EOCategory, less: (EOEvent, EOEvent) -> bool)
    requires StrictOrder(less)
    ensures SortedBy(less, FilteredEvents(events, c, less))
  {
    InsertionSortSorted(less, Candidates(events, c));
  }

  /** Attaching the filtered events and filtering the same batch again yields nothing. */
  lemma FilteredEventsIdempotent(events: seq<EOEvent>, c: EOCategory, less: (EOEvent, EOEvent) -> bool)
    ensures FilteredEvents(events, c.(events := c.events + FilteredEvents(events, c, less)), less) == []
  {
    var f := FilteredEvents(events, c, less);
    var c' := c.(events := c.events + f);
    var again := FilteredEvents(events, c', less);
    IdentifiersAppend(c.events, f);
    forall e | e in events ensures !Wanted(e, c') {
      if c.identifier in e.categories && e.identifier !in Identifiers(c.events) {
        assert multiset(f)[e] == multiset(events)[e] > 0;
        assert e in c'.events;
      }
    }
    assert multiset(again) == multiset{};
  }

  /** The comparator of the category list: ascending by name. */
  predicate ByName(a: EOCategory, b: EOCategory) {
    LexLess(a.name, b.name)
  }

  lemma ByNameStrictOrder()
    ensures StrictOrder(ByName)
  {
    forall a: EOCategory ensures !ByName(a, a) {
      LexLessIrreflexive(a.name);
    }
    forall a: EOCategory, b: EOCategory, d: EOCategory | ByName(a, b) && ByName(b, d)
      ensures ByName(a, d)
    {
      LexLessTransitive(a.name, b.name, d.name);
    }
  }

  /**
    `EONET.categories`: the decoded list sorted by name; a failed request or a
    failed decode (`None`) is replaced by the empty list.
  */
  function Categories(response: Option<seq<EOCategory>>): (r: seq<EOCategory>)
    ensures response.None? ==> r == []
    ensures response.Some? ==> multiset(r) == multiset(response.value)
  {
    match response
    case None => []
    case Some(cs) => InsertionSort(ByName, cs)
  }

  lemma CategoriesSortedByName(response: Option<seq<EOCategory>>)
    ensures var r := Categories(response);
            forall i, j :: 0 <= i < j < |r| ==> !LexLess(r[j].name, r[i].name)
  {
    if response.Some? {
      ByNameStrictOrder();
      InsertionSortSorted(ByName, response.value);
    }
  }

  /** The `status` query value. */
  function Status(closed: bool): string {
    if closed then "closed" else "open"
  }

  /** The query of `events(forLast:closed:endpoint:)`, each value rendered by its `description`. */
  function EventsQuery(days: int, closed: bool): map<string, string> {
    map["days" := IntToString(days), "status" := Status(closed)]
  }

  lemma EventsQueryContents(days: int, closed: bool)
    ensures EventsQuery(days, closed).Keys == {"days", "status"}
    ensures EventsQuery(days, closed)["status"] == "closed" <==> closed
    ensures EventsQuery(days, closed)["status"] == "open" <==> !closed
    ensures ParseInt(EventsQuery(days, closed)["days"]) == Some(days)
  {
    ParseIntToString(days);
  }

  /** A failed status request contributes the empty list. */
  function Fetched(response: Option<seq<EOEvent>>): seq<EOEvent> {
    response.GetOr([])
  }

  /** `reduce([]) { $0 + $1 }` over the arrays in the order they arrive. */
  function Concat(batches: seq<seq<EOEvent>>): seq<EOEvent> {
    if batches == [] then [] else Concat(batches[..|batches| - 1]) + batches[|batches| - 1]
  }

  /**
    `events(forLast:category:)`: the open and the closed events of a category,
    concatenated in whichever order the two responses arrive.
  */
  function CategoryEvents(open: Option<seq<EOEvent>>, closed: Option<seq<EOEvent>>, openFirst: bool): (r: seq<EOEvent>)
    ensures r == if openFirst then Fetched(open) + Fetched(closed) else Fetched(closed) + Fetched(open)
    ensures multiset(r) == multiset(Fetched(open)) + multiset(Fetched(closed))
  {
    var batches := if openFirst then [Fetched(open), Fetched(closed)] else [Fetched(closed), Fetched(open)];
    assert batches[..1] == [batches[0]] && batches[..1][..0] == [];
    assert Concat(batches[..1]) == batches[0];
    Concat(batches)
  }

  /** As a multiset, a category's events do not depend on the arrival order. */
  lemma CategoryEventsOrderIrrelevant(open: Option<seq<EOEvent>>, closed: Option<seq<EOEvent>>)
    ensures multiset(CategoryEvents(open, closed, true)) == multiset(CategoryEvents(open, closed, false))
  {
  }
}
