/** The GitHub feed screen: its response filters, JSON helpers, request building and event merge. */
module GitFeed {
  import opened Optional
  import opened Json

  /** A GitHub event as the feed shows it; equality is on all fields. */
  datatype Event = Event(action: string, repo: string, actorName: string, avatarUrl: string)

  /** An HTTP response as the filters see it: the status code and the header fields. */
  datatype Response = Response(statusCode: int, headerFields: map<string, JsonValue>)

  datatype Request = Request(url: string, headers: map<string, string>)

  const MaxEvents: nat := 50
  const ReposPrefix: string := "https://api.github.com/repos/"
  const EventsSuffix: string := "/events?per_page=5"
  const LastModifiedHeader: string := "Last-Modified"

  // ----- response filters -----

  /** `ignoreResponseErrors`: the events are read only from a 2xx response. */
  predicate IgnoreResponseErrors(response: Response) {
    200 <= response.statusCode < 300
  }

  /** `ignoreHeaderErrors`: the header is read from a 2xx or 3xx response. */
  predicate IgnoreHeaderErrors(response: Response) {
    200 <= response.statusCode < 400
  }

  /** Every response that passes the events filter passes the header filter; only 3xx passes one alone. */
  lemma StatusFiltersNested(response: Response)
    ensures IgnoreResponseErrors(response) ==> IgnoreHeaderErrors(response)
    ensures IgnoreHeaderErrors(response) && !IgnoreResponseErrors(response) <==> 300 <= response.statusCode < 400
  {
  }

  // ----- parseTopJson -----

  /** `$0["full_name"] as? String` for one item. */
  function ItemName(item: JsonValue): Option<string> {
    if item.JObject? && HasString(item.fields, "full_name") then Some(StringField(item.fields, "full_name"))
    else None
  }

  /** `compactMap` of `ItemName`: the names of the items that have one, in item order. */
  function FullNames(items: seq<JsonValue>): (names: seq<string>)
    ensures |names| <= |items|
    ensures forall n :: n in names ==> exists k :: 0 <= k < |items| && ItemName(items[k]) == Some(n)
    ensures forall k :: 0 <= k < |items| && ItemName(items[k]).Some? ==> ItemName(items[k]).value in names
  {
    if items == [] then []
    else
      var rest := FullNames(items[1..]);
      assert forall k :: 1 <= k < |items| ==> items[k] == items[1..][k - 1];
      match ItemName(items[0])
      case Some(n) => [n] + rest
      case None => rest
  }

  /** One item contributes its name, or nothing. */
  lemma FullNamesOne(item: JsonValue)
    ensures FullNames([item]) == (match ItemName(item) case Some(n) => [n] case None => [])
  {
    assert [item][1..] == [];
  }

  /** `compactMap` works item by item: the names of `a + b` are those of `a`, then those of `b`. */
  lemma {:induction false} FullNamesAppend(a: seq<JsonValue>, b: seq<JsonValue>)
    ensures FullNames(a + b) == FullNames(a) + FullNames(b)
    decreases |a|
  {
    if a == [] {
      assert a + b == b;
    } else {
      assert (a + b)[0] == a[0];
      assert (a + b)[1..] == a[1..] + b;
      FullNamesAppend(a[1..], b);
      match ItemName(a[0])
      case Some(n) =>
        assert FullNames(a + b) == [n] + FullNames(a[1..] + b);
        assert [n] + (FullNames(a[1..]) + FullNames(b)) == ([n] + FullNames(a[1..])) + FullNames(b);
      case None =>
    }
  }

  predicate AllObjects(items: seq<JsonValue>) {
    forall i :: 0 <= i < |items| ==> items[i].JObject?
  }

  /** The top level is an object whose "items" is an array of objects (`as? [[String: Any]]`). */
  predicate HasItems(response: JsonValue) {
    response.JObject? && "items" in response.fields && response.fields["items"].JArray?
    && AllObjects(response.fields["items"].items)
  }

  /** `parseTopJson`: the repository names of a search response, or nothing. */
  function ParseTopJson(response: JsonValue): (names: seq<string>)
    ensures !HasItems(response) ==> names == []
    ensures HasItems(response) ==> names == FullNames(response.fields["items"].items)
  {
    if HasItems(response) then FullNames(response.fields["items"].items) else []
  }

  /** The search response GitHub would send for these repository names. */
  function SearchResponse(names: seq<string>): JsonValue {
    JObject(map["items" := JArray(Items(names))])
  }

  function Items(names: seq<string>): (items: seq<JsonValue>)
    ensures |items| == |names|
  {
    seq(|names|, i requires 0 <= i < |names| => JObject(map["full_name" := JString(names[i])]))
  }

  lemma {:induction false} FullNamesOfItems(names: seq<string>)
    ensures FullNames(Items(names)) == names
    decreases |names|
  {
    if names != [] {
      var items := Items(names);
      assert items[1..] == Items(names[1..]);
      assert ItemName(items[0]) == Some(names[0]);
      FullNamesOfItems(names[1..]);
      assert names == [names[0]] + names[1..];
    }
  }

  /** `parseTopJson` returns the names of a search response in order. */
  lemma ParseTopJsonRoundTrip(names: seq<string>)
    ensures ParseTopJson(SearchResponse(names)) == names
  {
    var r := SearchResponse(names);
    assert r.fields["items"] == JArray(Items(names));
    FullNamesOfItems(names);
  }

  // ----- createRepoRequest and parseHeader -----

  function RepoUrl(repo: string): string {
    ReposPrefix + repo + EventsSuffix
  }

  /** The repository of an events URL, if `url` has that shape. */
  function RepoOfUrl(url: string): Option<string> {
    var p, q := |ReposPrefix|, |EventsSuffix|;
    if |url| >= p + q && url[..p] == ReposPrefix && url[|url| - q..] == EventsSuffix
    then Some(url[p..|url| - q]) else None
  }

  /**
    `createRepoRequest`; `lastModified` is the current value of the relay.
    The header is added only when there is a value.
  */
  function CreateRepoRequest(repo: string, lastModified: Option<string>): (r: Request)
    ensures RepoOfUrl(r.url) == Some(repo)
    ensures LastModifiedHeader in r.headers <==> lastModified.Some?
    ensures lastModified.Some? ==> r.headers[LastModifiedHeader] == lastModified.value
    ensures r.headers.Keys <= {LastModifiedHeader}
  {
    var url := RepoUrl(repo);
    assert url[..|ReposPrefix|] == ReposPrefix;
    assert url[|url| - |EventsSuffix|..] == EventsSuffix;
    assert url[|ReposPrefix|..|url| - |EventsSuffix|] == repo;
    match lastModified
    case None => Request(url, map[])
    case Some(v) => Request(url, map[LastModifiedHeader := v])
  }

  /** `parseHeader`: the `Last-Modified` value when it is a string, nothing otherwise. */
  function ParseHeader(response: Response): (r: Option<string>)
    ensures r.Some? <==> HasString(response.headerFields, LastModifiedHeader)
    ensures r.Some? ==> response.headerFields[LastModifiedHeader] == JString(r.value)
  {
    if HasString(response.headerFields, LastModifiedHeader)
    then Some(StringField(response.headerFields, LastModifiedHeader)) else None
  }

  /** A header read from one response is sent with the next request. */
  lemma HeaderCarriedForward(response: Response, repo: string)
    requires ParseHeader(response).Some?
    ensures CreateRepoRequest(repo, ParseHeader(response)).headers[LastModifiedHeader]
            == response.headerFields[LastModifiedHeader].s
  {
  }

  // ----- processEvents -----

  predicate Distinct(s: seq<Event>) {
    forall i, j :: 0 <= i < j < |s| ==> s[i] != s[j]
  }

  function Elements(s: seq<Event>): set<Event> {
    set e | e in s
  }

  /**
    What `processEvents` may leave in the relay: no duplicates, only events
    from the new or the previous list, and as many distinct ones as there
    are, up to 50. Which ones survive the cap is left open, as `Set`
    iteration order is.
  */
  ghost predicate MergedFeed(previous: seq<Event>, newEvents: seq<Event>, r: seq<Event>) {
    var pool := Elements(newEvents + previous);
    && Distinct(r)
    && Elements(r) <= pool
    && |r| == (if |pool| <= MaxEvents then |pool| else MaxEvents)
  }

  lemma {:induction false} DistinctCardinality(s: seq<Event>)
    requires Distinct(s)
    ensures |Elements(s)| == |s|
    decreases |s|
  {
    if s != [] {
      var init := s[..|s| - 1];
      assert Distinct(init);
      DistinctCardinality(init);
      assert Elements(s) == Elements(init) + {s[|s| - 1]};
      assert s[|s| - 1] !in Elements(init);
    }
  }

  /** When at most 50 distinct events are on offer, every one of them is kept. */
  lemma MergeKeepsAllWhenRoom(previous: seq<Event>, newEvents: seq<Event>, r: seq<Event>)
    requires MergedFeed(previous, newEvents, r)
    requires |Elements(newEvents + previous)| <= MaxEvents
    ensures Elements(r) == Elements(newEvents + previous)
  {
    DistinctCardinality(r);
    var pool := Elements(newEvents + previous);
    var kept := Elements(r);
    assert pool == kept + (pool - kept);
    assert |pool - kept| == 0;
  }

  /** Fetching the same page again after a merge that kept everything changes nothing but the order. */
  lemma RefetchIsStable(previous: seq<Event>, page: seq<Event>, r1: seq<Event>, r2: seq<Event>)
    requires MergedFeed(previous, page, r1) && MergedFeed(r1, page, r2)
    requires |Elements(page + previous)| <= MaxEvents
    ensures Elements(r2) == Elements(r1)
  {
    MergeKeepsAllWhenRoom(previous, page, r1);
    assert Elements(page + r1) == Elements(r1);
    DistinctCardinality(r1);
    MergeKeepsAllWhenRoom(r1, page, r2);
  }

  /** `Array(Set(s))`: the distinct events of `s`, in an order that is not specified. */
  method Unique(s: seq<Event>) returns (r: seq<Event>)
    ensures Distinct(r) && Elements(r) == Elements(s)
  {
    var pending := Elements(s);
    r := [];
    while pending != {}
      invariant Distinct(r)
      invariant Elements(r) !! pending
      invariant Elements(r) + pending == Elements(s)
      decreases |pending|
    {
      var e :| e in pending;
      assert Elements(r + [e]) == Elements(r) + {e};
      r := r + [e];
      pending := pending - {e};
    }
  }

  /** The screen's two relays. */
  class GitFeedScreen {
    var events: seq<Event>
    var lastModified: Option<string>

    constructor ()
      ensures events == [] && lastModified == None
    {
      events := [];
      lastModified := None;
    }

    /** `processEvents`: new events first, then the old ones, deduplicated, capped at 50. */
    method ProcessEvents(newEvents: seq<Event>)
      modifies this
      ensures MergedFeed(old(events), newEvents, events)
      ensures Distinct(events) && |events| <= MaxEvents
      ensures lastModified == old(lastModified)
    {
      var updatedEvents := newEvents;
      updatedEvents := updatedEvents + events;
      var pool := Elements(updatedEvents);
      updatedEvents := Unique(updatedEvents);
      DistinctCardinality(updatedEvents);
      if |updatedEvents| > MaxEvents {
        var all := updatedEvents;
        updatedEvents := updatedEvents[..MaxEvents];
        assert Elements(updatedEvents) <= Elements(all);
      }
      events := updatedEvents;
    }

    /** `processHeader`: remember the header for the next request. */
    method ProcessHeader(modifiedHeader: string)
      modifies this
      ensures lastModified == Some(modifiedHeader) && events == old(events)
    {
      lastModified := Some(modifiedHeader);
    }

    /**
      One repository response through both subscriptions of `fetchEvents`:
      `decoded` is the result of decoding its body (`None` when it fails).
    */
    method HandleResponse(response: Response, decoded: Option<seq<Event>>)
      modifies this
      ensures IgnoreResponseErrors(response) && decoded.Some? ==> MergedFeed(old(events), decoded.value, events)
      ensures !(IgnoreResponseErrors(response) && decoded.Some?) ==> events == old(events)
      ensures lastModified == if IgnoreHeaderErrors(response) && ParseHeader(response).Some?
                              then ParseHeader(response) else old(lastModified)
    {
      if IgnoreResponseErrors(response) && decoded.Some? {
        ProcessEvents(decoded.value);
      }
      if IgnoreHeaderErrors(response) {
        var header := ParseHeader(response);
        if header.Some? {
          ProcessHeader(header.value);
        }
      }
    }
  }
}
