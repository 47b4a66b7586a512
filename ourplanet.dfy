/**
  The accumulator of the download `scan` on the planet screen: a counter of
  downloaded batches and the category list, into which each batch of events
  is merged category by category.
*/
module OurPlanet {
  import opened EoEvent
  import opened EoCategory
  import opened Eonet

  /** One category after a batch: the filtered events appended, or the category itself when there are none. */
  function UpdateCategory(c: EOCategory, batch: seq<EOEvent>, less: (EOEvent, EOEvent) -> bool): (r: EOCategory)
    ensures r.identifier == c.identifier && r.name == c.name && r.description == c.description
    ensures r.events == c.events + FilteredEvents(batch, c, less)
  {
    var added := FilteredEvents(batch, c, less);
    if added != [] then c.(events := c.events + added) else c
  }

  /** The closure given to `scan`: count the batch, map every category through `UpdateCategory`. */
  function ScanStep(acc: (int, seq<EOCategory>), batch: seq<EOEvent>, less: (EOEvent, EOEvent) -> bool)
    : (r: (int, seq<EOCategory>))
    ensures r.0 == acc.0 + 1 && |r.1| == |acc.1|
    ensures forall i :: 0 <= i < |acc.1| ==> r.1[i] == UpdateCategory(acc.1[i], batch, less)
  {
    (acc.0 + 1, seq(|acc.1|, i requires 0 <= i < |acc.1| => UpdateCategory(acc.1[i], batch, less)))
  }

  /** A category whose filtered batch is empty comes out unchanged. */
  lemma NothingAddedUnchanged(c: EOCategory, batch: seq<EOEvent>, less: (EOEvent, EOEvent) -> bool)
    requires FilteredEvents(batch, c, less) == []
    ensures UpdateCategory(c, batch, less) == c
  {
  }

  /**
    A step keeps the list's length and order and each category's identity,
    name and description; old events are a prefix of the new ones, the rest
    is the filtered batch, and none of it repeats an identifier already there.
  */
  lemma ScanStepShape(acc: (int, seq<EOCategory>), batch: seq<EOEvent>, less: (EOEvent, EOEvent) -> bool, i: int)
    requires 0 <= i < |acc.1|
    ensures var c, d := acc.1[i], ScanStep(acc, batch, less).1[i];
      && SameCategory(c, d) && d.name == c.name && d.description == c.description
      && |c.events| <= |d.events| && d.events[..|c.events|] == c.events
      && d.events[|c.events|..] == FilteredEvents(batch, c, less)
      && forall e :: e in d.events[|c.events|..] ==> e.identifier !in Identifiers(c.events)
  {
    var c, d := acc.1[i], ScanStep(acc, batch, less).1[i];
    assert d.events == c.events + FilteredEvents(batch, c, less);
  }

  /** The accumulator after folding `batches`, one step per batch. */
  function Scan(acc: (int, seq<EOCategory>), batches: seq<seq<EOEvent>>, less: (EOEvent, EOEvent) -> bool)
    : (int, seq<EOCategory>)
    decreases |batches|
  {
    if batches == [] then acc else Scan(ScanStep(acc, batches[0], less), batches[1..], less)
  }

  /** Started from count 0, the counter equals the number of batches folded in. */
  lemma {:induction false} ScanCounts(acc: (int, seq<EOCategory>), batches: seq<seq<EOEvent>>, less: (EOEvent, EOEvent) -> bool)
    ensures Scan(acc, batches, less).0 == acc.0 + |batches|
    ensures acc.0 == 0 ==> Scan(acc, batches, less).0 == |batches|
    decreases |batches|
  {
    if batches != [] {
      ScanCounts(ScanStep(acc, batches[0], less), batches[1..], less);
    }
  }

  /**
    Over any number of batches the list keeps its length and order, every
    category keeps identifier, name and description, and its events only grow
    at the end.
  */
  lemma {:induction false} ScanOnlyAppends(acc: (int, seq<EOCategory>), batches: seq<seq<EOEvent>>, less: (EOEvent, EOEvent) -> bool)
    ensures |Scan(acc, batches, less).1| == |acc.1|
    ensures forall i :: 0 <= i < |acc.1| ==>
      var c, d := acc.1[i], Scan(acc, batches, less).1[i];
      && SameCategory(c, d) && d.name == c.name && d.description == c.description
      && |c.events| <= |d.events| && d.events[..|c.events|] == c.events
    decreases |batches|
  {
    if batches != [] {
      var next := ScanStep(acc, batches[0], less);
      ScanOnlyAppends(next, batches[1..], less);
      forall i | 0 <= i < |acc.1|
        ensures var c, d := acc.1[i], Scan(acc, batches, less).1[i];
          && SameCategory(c, d) && d.name == c.name && d.description == c.description
          && |c.events| <= |d.events| && d.events[..|c.events|] == c.events
      {
        ScanStepShape(acc, batches[0], less, i);
        var c, m, d := acc.1[i], next.1[i], Scan(acc, batches, less).1[i];
        assert d.events[..|m.events|] == m.events;
        assert m.events[..|c.events|] == c.events;
        assert d.events[..|c.events|] == d.events[..|m.events|][..|c.events|];
      }
    }
  }
}
