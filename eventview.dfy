/** The event list screen: the events of one category, narrowed to the last `days` days. */
module EventView {
  import opened Optional
  import opened EoEvent

  const InitialDays: int := 360
  const SecondsPerDay: int := 24 * 3600

  function Abs(x: int): nat {
    if x < 0 then -x else x
  }

  /** Undated events are always shown; dated ones strictly within `days` days of now. */
  predicate Recent(e: EOEvent, days: int) {
    match e.secondsSinceNow
    case None => true
    case Some(t) => Abs(t) < days * SecondsPerDay
  }

  /** `a` is `b` with some elements left out, order kept. */
  predicate IsSubsequence(a: seq<EOEvent>, b: seq<EOEvent>)
    decreases |b|
  {
    if a == [] then true
    else if b == [] then false
    else (a[0] == b[0] && IsSubsequence(a[1..], b[1..])) || IsSubsequence(a, b[1..])
  }

  /** The closure of `combineLatest(days, events)`. */
  function WithinDays(days: int, events: seq<EOEvent>): (r: seq<EOEvent>)
    ensures forall e :: e in r <==> e in events && Recent(e, days)
    ensures |r| <= |events|
  {
    if events == [] then []
    else
      assert events == [events[0]] + events[1..];
      (if Recent(events[0], days) then [events[0]] else []) + WithinDays(days, events[1..])
  }

  /** `filter` keeps every copy of a recent event and drops every other event. */
  lemma {:induction false} WithinDaysCounts(days: int, events: seq<EOEvent>)
    ensures forall e :: multiset(WithinDays(days, events))[e] == if Recent(e, days) then multiset(events)[e] else 0
    decreases |events|
  {
    if events != [] {
      WithinDaysCounts(days, events[1..]);
      assert events == [events[0]] + events[1..];
    }
  }

  lemma SubsequenceOfTail(a: seq<EOEvent>, x: EOEvent, b: seq<EOEvent>)
    requires IsSubsequence(a, b)
    ensures IsSubsequence(a, [x] + b)
  {
    assert ([x] + b)[1..] == b;
  }

  lemma SubsequenceCons(x: EOEvent, a: seq<EOEvent>, b: seq<EOEvent>)
    requires IsSubsequence(a, b)
    ensures IsSubsequence([x] + a, [x] + b)
  {
    assert ([x] + a)[1..] == a && ([x] + b)[1..] == b;
  }

  /** The filter keeps the events in their order. */
  lemma {:induction false} WithinDaysSubsequence(days: int, events: seq<EOEvent>)
    ensures IsSubsequence(WithinDays(days, events), events)
    decreases |events|
  {
    if events != [] {
      var x, tail := events[0], events[1..];
      var rest := WithinDays(days, tail);
      WithinDaysSubsequence(days, tail);
      assert events == [x] + tail;
      if Recent(x, days) {
        assert WithinDays(days, events) == [x] + rest;
        SubsequenceCons(x, rest, tail);
      } else {
        assert WithinDays(days, events) == rest;
        SubsequenceOfTail(rest, x, tail);
      }
    }
  }

  /** Allowing more days never removes an event: the shorter window's list is a subsequence of the longer one's. */
  lemma {:induction false} WithinDaysMonotone(fewer: int, more: int, events: seq<EOEvent>)
    requires fewer <= more
    ensures IsSubsequence(WithinDays(fewer, events), WithinDays(more, events))
    decreases |events|
  {
    if events != [] {
      var x := events[0];
      var small, big := WithinDays(fewer, events[1..]), WithinDays(more, events[1..]);
      WithinDaysMonotone(fewer, more, events[1..]);
      if Recent(x, fewer) {
        assert fewer * SecondsPerDay <= more * SecondsPerDay;
        assert Recent(x, more);
        assert ([x] + small)[1..] == small && ([x] + big)[1..] == big;
      } else if Recent(x, more) {
        assert WithinDays(fewer, events) == small && WithinDays(more, events) == [x] + big;
        SubsequenceOfTail(small, x, big);
      } else {
        assert WithinDays(fewer, events) == small && WithinDays(more, events) == big;
      }
    }
  }

  /** The three relays of the screen, held consistent by `combineLatest`. */
  class EventScreen {
    var events: seq<EOEvent>
    var days: int
    var filteredEvents: seq<EOEvent>

    ghost predicate Valid()
      reads this
    {
      filteredEvents == WithinDays(days, events)
    }

    constructor ()
      ensures Valid() && events == [] && days == InitialDays && filteredEvents == []
    {
      events := [];
      days := InitialDays;
      filteredEvents := [];
    }

    /** `days.accept(_)` from the slider; `combineLatest` emits the new filtered list. */
    method AcceptDays(d: int)
      modifies this
      ensures Valid() && days == d && events == old(events)
    {
      days := d;
      filteredEvents := WithinDays(days, events);
    }

    /** `events.accept(_)` when the screen is shown for a category. */
    method AcceptEvents(es: seq<EOEvent>)
      modifies this
      ensures Valid() && events == es && days == old(days)
    {
      events := es;
      filteredEvents := WithinDays(days, events);
    }
  }
}
