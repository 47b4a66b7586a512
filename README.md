# RxSwiftDive, modelled in Dafny

RxSwiftDive is an iOS app for learning RxSwift. Its Basics chapters are
small reactive exercises. Three feature screens sit beside them: the NASA
event browser "OurPlanet", a GitHub activity feed and the photo collage
"Combinestagram". This project models the hand-written logic of those
pieces and proves what the code promises about it:

- the EONET client: which events are attached to a category, the category
  order and fallback, the events query, and merging the open and closed
  lists;
- the `scan` that folds each downloaded batch into the category list;
- the day filter of the event list;
- the GitHub feed: the two status filters, `parseTopJson`, the request
  with its `Last-Modified` header, `parseHeader`, and the deduplicating,
  capped merge of `processEvents`;
- the collage rules: button states and title, the landscape filter and
  the PNG-length cache, the six-photo limit, clearing;
- the card deck and the hand helpers, dealing a hand, the score
  subscriber, and the login relay of the subjects chapter;
- the phone-number pipeline of the filtering chapter;
- `String.titleCase()`.

Reactive streams are modelled by what reaches their subscribers. A
`BehaviorRelay` that a screen updates is a field of a class. Its
subscribers' effects are the `ensures` of the method that accepts a value.
A finite stream folded by `scan` or `reduce` is a sequence folded by a
function. Randomness, the network, decoding done by Foundation, and the
order in which concurrent responses arrive are all parameters.

Files, one module each: `optional.dfy` (Option), `decimal.dfy` (decimal
rendering of integers, as string interpolation does it), `json.dfy` (the
JSON values `JSONSerialization` yields), `sorting.dfy` (`sorted(by:)` and
`String <`), `eoevent.dfy`, `eocategory.dfy`, `eonet.dfy`, `ourplanet.dfy`,
`eventview.dfy`, `gitfeed.dfy`, `collage.dfy`, `supportcode.dfy`,
`subjects.dfy`, `filtering.dfy` and `titlecase.dfy`.

## Model

| member | source | states |
|---|---|---|
| Decimal.ParseIntToString | RxSwiftDive/Modules/OurPlanet/Model/EOCategory.swift:9-11 | The decimal text that interpolation gives an integer reads back as that integer, sign included. |
| Decimal.IntToStringInjective | RxSwiftDive/Modules/OurPlanet/Model/EOCategory.swift:9-11 | Two integers get the same decimal text exactly when they are equal. |
| Decimal.SingleDigit | RxSwiftDive/Modules/Basics/Chapters/TopicFiltering.swift:227 | A value from 0 to 9 is rendered as one digit character. |
| Sorting.InsertionSort | RxSwiftDive/Modules/OurPlanet/Model/EONET.swift:26 | `sorted(by:)` returns a permutation of its input: the same multiset and the same length. |
| Sorting.InsertionSortSorted | RxSwiftDive/Modules/OurPlanet/Model/EONET.swift:26 | With a strict order as comparator, no element of the result comes before an earlier one. |
| Sorting.LexLessTransitive | RxSwiftDive/Modules/OurPlanet/Model/EONET.swift:33 | `<` on names is transitive. `Sorting.LexLessIrreflexive` shows it is irreflexive, so it is a strict order. |
| EoEvent.IdentifiersAppend | RxSwiftDive/Modules/OurPlanet/Model/EONET.swift:22-24 | The identifiers that `contains(where:)` looks through, for two lists of events together, are those of each list: attaching events only adds their identifiers. |
| EoCategory.EndpointShape | RxSwiftDive/Modules/OurPlanet/Model/EOCategory.swift:9-11 | The endpoint is "/categories/" followed by text that parses back to the identifier. |
| EoCategory.EndpointIdentifies | RxSwiftDive/Modules/OurPlanet/Model/EOCategory.swift:9-11 | Two categories have the same endpoint exactly when they have the same identifier. |
| EoCategory.SameCategoryIgnoresContents | RxSwiftDive/Modules/OurPlanet/Model/EOCategory.swift:18-22 | `==` compares only identifiers: changing name, description or events keeps a category equal to itself. |
| EoCategory.SameCategoryEquivalence | RxSwiftDive/Modules/OurPlanet/Model/EOCategory.swift:18-22 | Category equality is reflexive, symmetric and transitive. |
| EoCategory.DecodeCategory | RxSwiftDive/Modules/OurPlanet/Model/EOCategory.swift:3-15 | Decoding succeeds exactly when "id" is a number and "title" and "description" are strings. A decoded category has no events. |
| EoCategory.DecodeCategoryJson | RxSwiftDive/Modules/OurPlanet/Model/EOCategory.swift:3-15 | Decoding a category's JSON, whatever extra keys it has, gives back identifier, name and description, with an empty event list. |
| Eonet.Candidates | RxSwiftDive/Modules/OurPlanet/Model/EONET.swift:19-25 | Each wanted event is kept as many times as it occurs. Every other event is dropped. |
| Eonet.FilteredEvents | RxSwiftDive/Modules/OurPlanet/Model/EONET.swift:18-27 | Every result lists the category and is not yet attached to it by identifier. The result is a permutation of the wanted events of the input. |
| Eonet.FilteredEventsSorted | RxSwiftDive/Modules/OurPlanet/Model/EONET.swift:26 | Given a strict date order, the filtered events are sorted by it. |
| Eonet.FilteredEventsIdempotent | RxSwiftDive/Modules/OurPlanet/Model/EONET.swift:18-27 | Attach the filtered events, then filter the same batch again: nothing is left. |
| Eonet.ByNameStrictOrder | RxSwiftDive/Modules/OurPlanet/Model/EONET.swift:33 | The category comparator `$0.name < $1.name` is a strict order. |
| Eonet.Categories | RxSwiftDive/Modules/OurPlanet/Model/EONET.swift:29-36 | A failed request gives the empty list. Otherwise the result is a permutation of the decoded categories. |
| Eonet.CategoriesSortedByName | RxSwiftDive/Modules/OurPlanet/Model/EONET.swift:33 | The category list is in ascending name order. |
| Eonet.EventsQueryContents | RxSwiftDive/Modules/OurPlanet/Model/EONET.swift:83-87 | The query holds exactly "days" and "status". The status is "closed" exactly for closed events and "open" otherwise. The days text parses back to the number of days. |
| Eonet.CategoryEvents | RxSwiftDive/Modules/OurPlanet/Model/EONET.swift:90-101 | The result concatenates the two lists in arrival order. A failed list counts as empty. As a multiset, the result is the sum of the two lists. |
| Eonet.CategoryEventsOrderIrrelevant | RxSwiftDive/Modules/OurPlanet/Model/EONET.swift:98-100 | Which status list arrives first does not change a category's events as a multiset. |
| OurPlanet.UpdateCategory | RxSwiftDive/Modules/OurPlanet/OurPlanetViewController.swift:73-80 | Identifier, name and description are kept. The events become the old events followed by the filtered batch. |
| OurPlanet.ScanStep | RxSwiftDive/Modules/OurPlanet/OurPlanetViewController.swift:71-81 | The counter goes up by one. The list keeps its length, and each position holds that category updated with the batch. |
| OurPlanet.NothingAddedUnchanged | RxSwiftDive/Modules/OurPlanet/OurPlanetViewController.swift:75-80 | A category with nothing to add comes out unchanged. |
| OurPlanet.ScanStepShape | RxSwiftDive/Modules/OurPlanet/OurPlanetViewController.swift:71-81 | After one step each category is the same category with the same texts. Its old events come first. The appended part is the filtered batch and repeats no identifier already present. |
| OurPlanet.ScanCounts | RxSwiftDive/Modules/OurPlanet/OurPlanetViewController.swift:72-73 | Started from 0, the counter equals the number of batches downloaded. |
| OurPlanet.ScanOnlyAppends | RxSwiftDive/Modules/OurPlanet/OurPlanetViewController.swift:71-81 | Over any number of batches, categories keep their identity, texts and position, and their events only grow at the end. |
| EventView.WithinDays | RxSwiftDive/Modules/OurPlanet/EventViewController.swift:34-43 | An event is kept exactly when it is undated or less than `days * 24 * 3600` seconds from now. The result is no longer than the input. |
| EventView.WithinDaysCounts | RxSwiftDive/Modules/OurPlanet/EventViewController.swift:37-42 | Every copy of a recent event is kept, and every other event is dropped. |
| EventView.WithinDaysSubsequence | RxSwiftDive/Modules/OurPlanet/EventViewController.swift:37-42 | The filtered list is a subsequence of the events, in their order. |
| EventView.WithinDaysMonotone | RxSwiftDive/Modules/OurPlanet/EventViewController.swift:34-43 | Widening the day range never drops an event. |
| EventView.EventScreen.constructor | RxSwiftDive/Modules/OurPlanet/EventViewController.swift:20-22 | The relays start with no events, 360 days and an empty filtered list. |
| EventView.EventScreen.AcceptDays | RxSwiftDive/Modules/OurPlanet/EventViewController.swift:34-51 | A new day count from the slider re-filters the same events. |
| EventView.EventScreen.AcceptEvents | RxSwiftDive/Modules/OurPlanet/EventViewController.swift:34-45 | New events are filtered with the current day count. |
| GitFeed.StatusFiltersNested | RxSwiftDive/Modules/GitFeed/GitFeedViewController.swift:141-147 | A response good for events is good for the header. Only a 3xx status passes the header filter alone. |
| GitFeed.FullNames | RxSwiftDive/Modules/GitFeed/GitFeedViewController.swift:154 | Every name returned is the string "full_name" of some item. Every item with one contributes it. |
| GitFeed.FullNamesOne | RxSwiftDive/Modules/GitFeed/GitFeedViewController.swift:154 | One item gives its `full_name` string when it has one, and nothing otherwise. |
| GitFeed.FullNamesAppend | RxSwiftDive/Modules/GitFeed/GitFeedViewController.swift:154 | The names of two item lists together are the names of the first, then those of the second. With `FullNamesOne`, this fixes the result, order and count included. |
| GitFeed.ParseTopJson | RxSwiftDive/Modules/GitFeed/GitFeedViewController.swift:149-155 | A response that is not an object with an "items" array of objects gives no names. Otherwise the result is the items' names. |
| GitFeed.ParseTopJsonRoundTrip | RxSwiftDive/Modules/GitFeed/GitFeedViewController.swift:149-155 | The names of a search response come back complete and in order. |
| GitFeed.CreateRepoRequest | RxSwiftDive/Modules/GitFeed/GitFeedViewController.swift:132-139 | The URL names exactly the given repository. The `Last-Modified` header is present exactly when the relay holds a value, carries that value, and is the only header. |
| GitFeed.ParseHeader | RxSwiftDive/Modules/GitFeed/GitFeedViewController.swift:161-166 | A value is emitted exactly when `Last-Modified` is a string header, and it is that string. |
| GitFeed.HeaderCarriedForward | RxSwiftDive/Modules/GitFeed/GitFeedViewController.swift:132-139 | A header read from one response is the header sent with the next request. |
| GitFeed.DistinctCardinality | RxSwiftDive/Modules/GitFeed/GitFeedViewController.swift:176-177 | A list without duplicates has as many elements as its set. |
| GitFeed.MergeKeepsAllWhenRoom | RxSwiftDive/Modules/GitFeed/GitFeedViewController.swift:168-183 | When at most 50 distinct events are on offer, the merged feed keeps all of them. |
| GitFeed.RefetchIsStable | RxSwiftDive/Modules/GitFeed/GitFeedViewController.swift:168-183 | Merging the same page twice leaves the same set of events as merging it once, when there is room. |
| GitFeed.Unique | RxSwiftDive/Modules/GitFeed/GitFeedViewController.swift:176-177 | `Array(Set(_))` has no duplicates and holds exactly the input's events. |
| GitFeed.GitFeedScreen.constructor | RxSwiftDive/Modules/GitFeed/GitFeedViewController.swift:22-23 | The header relay starts empty (`nil`) and the event relay with no events. |
| GitFeed.GitFeedScreen.ProcessEvents | RxSwiftDive/Modules/GitFeed/GitFeedViewController.swift:168-183 | The relay gets new and previous events deduplicated: all of them if there are at most 50, otherwise 50 of them. The header relay is untouched. |
| GitFeed.GitFeedScreen.ProcessHeader | RxSwiftDive/Modules/GitFeed/GitFeedViewController.swift:196-201 | The header relay holds the new value. The events are untouched. |
| GitFeed.GitFeedScreen.HandleResponse | RxSwiftDive/Modules/GitFeed/GitFeedViewController.swift:99-109 | Events are merged only from a 2xx response whose body decodes. The header is taken only from a 2xx or 3xx response that has one. Otherwise nothing changes. |
| Combinestagram.UpdateUITitle | RxSwiftDive/Modules/Combinestagram/CombineViewController.swift:58-64 | Save is enabled only when clear is. "Collage" is shown exactly for an empty collage, and otherwise the title begins with the photo count. |
| Combinestagram.Offer | RxSwiftDive/Modules/Combinestagram/CombineViewController.swift:88-100 | A photo changes the state exactly when it is landscape and its PNG length is not yet cached. |
| Combinestagram.AcceptAllConsistent | RxSwiftDive/Modules/Combinestagram/CombineViewController.swift:84-100 | The collage never exceeds 6 photos. It keeps one distinct cache entry per photo, recording that photo's PNG length. |
| Combinestagram.AcceptAllAppends | RxSwiftDive/Modules/Combinestagram/CombineViewController.swift:84-100 | Photos and cache only grow at the end. Every added photo is landscape, comes from the selection, and has a PNG length that was not cached. |
| Combinestagram.AcceptAllSplit | RxSwiftDive/Modules/Combinestagram/CombineViewController.swift:84-100 | Photos are handled one after another: offering `a + b` is offering `a`, then `b`. |
| Combinestagram.StopsWhenFull | RxSwiftDive/Modules/Combinestagram/CombineViewController.swift:85-87 | Once the collage is full, `takeWhile` has completed, and nothing offered afterwards is accepted. |
| Combinestagram.CombineScreen.constructor | RxSwiftDive/Modules/Combinestagram/CombineViewController.swift:22-24 | The screen starts with no photos, an empty cache and no icon. |
| Combinestagram.CombineScreen.UpdateNavigationIcon | RxSwiftDive/Modules/Combinestagram/CombineViewController.swift:66-76 | The icon is shown once the cache is non-empty. Photos and cache are untouched. |
| Combinestagram.CombineScreen.PushPhotos | RxSwiftDive/Modules/Combinestagram/CombineViewController.swift:78-111 | The photo loop computes exactly the stream fold `AcceptAll` and keeps the consistency invariant. On completion, the icon state is refreshed. |
| Combinestagram.CombineScreen.ActionClear | RxSwiftDive/Modules/Combinestagram/CombineViewController.swift:114-118 | Photos, cache and icon are cleared, which restores the invariant. |
| SupportCode.PointsAppend | RxSwiftDive/Source/SupportCode.swift:66-68 | The points of a hand are additive over concatenation. An empty hand has 0 points. |
| SupportCode.CardStringAppend | RxSwiftDive/Source/SupportCode.swift:62-64 | The glyph string of a hand is additive over concatenation. An empty hand gives the empty string. |
| SupportCode.CardStringGlyphs | RxSwiftDive/Source/SupportCode.swift:62-64 | With one-character glyphs, the string has one character per card, in hand order. |
| SupportCode.DeckFacts | RxSwiftDive/Source/SupportCode.swift:35-49 | The deck has 52 cards with one-character glyphs and values from 2 to 11. Exactly the cards at 0, 13, 26 and 39 are worth 11. |
| SupportCode.FourAces | RxSwiftDive/Source/SupportCode.swift:35-49 | Four cards of the deck are worth 11. |
| TopicSubjects.RemoveAt | RxSwiftDive/Modules/Basics/Chapters/TopicSubjects.swift:178 | Removing a card shortens the deck by one and takes exactly that card out of its multiset. |
| TopicSubjects.DealFrom | RxSwiftDive/Modules/Basics/Chapters/TopicSubjects.swift:171-180 | A hand has one card per draw, and its cards are a sub-multiset of the deck, so no card is dealt twice. |
| TopicSubjects.DrawOne | RxSwiftDive/Modules/Basics/Chapters/TopicSubjects.swift:176-179 | A draw takes the card at the chosen index, and the remaining draws are valid on the smaller deck. |
| TopicSubjects.DrawCards | RxSwiftDive/Modules/Basics/Chapters/TopicSubjects.swift:171-180 | The drawing loop over a copy of the deck produces exactly `DealFrom` of the random indices. |
| TopicSubjects.Deal | RxSwiftDive/Modules/Basics/Chapters/TopicSubjects.swift:170-185 | The hand has the requested number of cards. A total over 21 is sent as `busted` with that total. Any other hand is sent as the next element. |
| TopicSubjects.HandSubscriber.constructor | RxSwiftDive/Modules/Basics/Chapters/TopicSubjects.swift:162 | The score starts at 0, and the subscription is live. |
| TopicSubjects.HandSubscriber.Receive | RxSwiftDive/Modules/Basics/Chapters/TopicSubjects.swift:188-197 | Each hand adds one to the score. An error ends the subscription, and nothing is counted after it. |
| TopicSubjects.SessionRelay.constructor | RxSwiftDive/Modules/Basics/Chapters/TopicSubjects.swift:212 | The session starts logged out. |
| TopicSubjects.SessionRelay.LogInWith | RxSwiftDive/Modules/Basics/Chapters/TopicSubjects.swift:220-233 | The login succeeds exactly for the one valid username and password, and then the relay is logged in. Otherwise, `invalidCredentials` is reported and the relay is unchanged. |
| TopicSubjects.SessionRelay.LogOut | RxSwiftDive/Modules/Basics/Chapters/TopicSubjects.swift:235-238 | The relay is logged out. |
| TopicSubjects.SessionRelay.PerformActionRequiringLoggedInUser | RxSwiftDive/Modules/Basics/Chapters/TopicSubjects.swift:240-249 | The action runs exactly when the relay is logged in. |
| TopicSubjects.ChallengeTwo | RxSwiftDive/Modules/Basics/Chapters/TopicSubjects.swift:251-268 | The wrong password is refused and access denied. The right one logs in and access is allowed. |
| TopicFiltering.Formatted | RxSwiftDive/Modules/Basics/Chapters/TopicFiltering.swift:229-237 | The number is two characters longer than its digits and has dashes at positions 3 and 7. Deleting the dashes gives the digits back. |
| TopicFiltering.PhoneNumber | RxSwiftDive/Modules/Basics/Chapters/TopicFiltering.swift:226-240 | The two in-place insertions produce the formatted joined digits. |
| TopicFiltering.JoinedDigits | RxSwiftDive/Modules/Basics/Chapters/TopicFiltering.swift:227 | Single digits join to one character each, in order. |
| TopicFiltering.TenDigitPhone | RxSwiftDive/Modules/Basics/Chapters/TopicFiltering.swift:226-240 | Ten digits give a 12-character number with dashes at positions 3 and 7. |
| TopicFiltering.SkipLeadingZeros | RxSwiftDive/Modules/Basics/Chapters/TopicFiltering.swift:246 | What passes is a suffix of the input. Everything dropped before it is zero, and it does not start with zero. |
| TopicFiltering.SkipExactlyLeadingZeros | RxSwiftDive/Modules/Basics/Chapters/TopicFiltering.swift:246 | After any run of zeros, everything from the first non-zero value on passes. |
| TopicFiltering.KeepDigitsCounts | RxSwiftDive/Modules/Basics/Chapters/TopicFiltering.swift:247 | Each value from 0 to 9 passes as many times as it occurs. Every other value is dropped. |
| TopicFiltering.KeepDigitsAppend | RxSwiftDive/Modules/Basics/Chapters/TopicFiltering.swift:247 | The filter works value by value: filtering `a + b` is filtering `a`, then `b`, so the order is kept. |
| TopicFiltering.CollectDigits | RxSwiftDive/Modules/Basics/Chapters/TopicFiltering.swift:245-249 | When an array is emitted, it holds ten values, each from 0 to 9. |
| TopicFiltering.CollectAfterLeadingZeros | RxSwiftDive/Modules/Basics/Chapters/TopicFiltering.swift:245-249 | After any run of zeros, ten digits starting with a non-zero one are exactly the array emitted, whatever follows. |
| TopicFiltering.FewDigitsEmitNothing | RxSwiftDive/Modules/Basics/Chapters/TopicFiltering.swift:247-249 | With fewer than ten values from 0 to 9 in the input, `take(10)` never completes and nothing is emitted. |
| TopicFiltering.CollectIgnoresLaterInputs | RxSwiftDive/Modules/Basics/Chapters/TopicFiltering.swift:248-249 | Once ten digits have been collected, later inputs change nothing. |
| TopicFiltering.LeadingZeroDropped | RxSwiftDive/Modules/Basics/Chapters/TopicFiltering.swift:246 | A leading zero is skipped. |
| TopicFiltering.CollectAfterZeroAndOutOfRange | RxSwiftDive/Modules/Basics/Chapters/TopicFiltering.swift:246-249 | After 0 and 603, the next ten digits are what gets collected. |
| TopicFiltering.PhoneOf | RxSwiftDive/Modules/Basics/Chapters/TopicFiltering.swift:251 | The lookup key of ten digits has 12 characters with dashes at 3 and 7. Deleting the dashes gives the joined digits. |
| TopicFiltering.Dial | RxSwiftDive/Modules/Basics/Chapters/TopicFiltering.swift:250-257 | The subscriber acts exactly when the digits are collected. It dials exactly when the formatted number is a contact: that contact, at that number. |
| TopicFiltering.ChallengeDialsShai | RxSwiftDive/Modules/Basics/Chapters/TopicFiltering.swift:262-278 | The challenge's inputs dial Shai at 212-555-1212, whatever follows them. |
| TopicFiltering.SevenNotFound | RxSwiftDive/Modules/Basics/Chapters/TopicFiltering.swift:268-270 | Typing 7 in place of the second 2 gives "Contact not found". |
| StringExtensions.InsertSpacesCount | RxSwiftDive/Extensions/String+.swift:16-19 | The replacement adds one character per capital letter and changes nothing but whitespace. |
| StringExtensions.InsertSpaces | RxSwiftDive/Extensions/String+.swift:16-19 | Every capital letter of the result is preceded by a space. |
| StringExtensions.Trim | RxSwiftDive/Extensions/String+.swift:20 | The result is a slice of the input that neither starts nor ends with whitespace. Everything outside it is whitespace. |
| StringExtensions.TrimKeepsText | RxSwiftDive/Extensions/String+.swift:20 | Trimming deletes only whitespace. |
| StringExtensions.CapitalizeFrom | RxSwiftDive/Extensions/String+.swift:21 | Each character is upper-cased if it begins a word, lower-cased otherwise; whitespace is kept. |
| StringExtensions.CapitalizeKeepsText | RxSwiftDive/Extensions/String+.swift:21 | `capitalized` changes only letter case. |
| StringExtensions.TitleCaseTrimmed | RxSwiftDive/Extensions/String+.swift:13-22 | A title neither starts nor ends with whitespace. |
| StringExtensions.TitleCaseWords | RxSwiftDive/Extensions/String+.swift:13-22 | Every word of a title starts with a character that is not a lowercase letter, and has no capital after its first character. |
| StringExtensions.TitleCaseKeepsText | RxSwiftDive/Extensions/String+.swift:13-22 | With whitespace deleted and letters lowered, the title equals the input treated the same way. |
| StringExtensions.SubjectsTitle | RxSwiftDive/Extensions/String+.swift:13-22 | "TopicSubjects" becomes "Topic Subjects". |

## Left out

- Networking, URL building and `URLSession` are not modelled. Responses, and the results of `JSONDecoder`, `parseRepoJson` and `JSONSerialization`, are parameters (`Option` for a failure).
- File caching (`events.json`, `modified.txt`, `fetchFromPlist`) and the photo library are not modelled: they are file I/O.
- The file that defines `EOEvent`, with its decoder and `compareDates`, is not part of this model. Events are modelled from their use, and the date comparator is a parameter.
- Eonet.FilteredEventsSorted: proved for any strict order. How Swift's `sorted` orders ties is not modelled.
- EventView.WithinDays: dates are whole seconds relative to now as an `int`. `TimeInterval` floating point and clock reading are not modelled.
- Concurrency is not modelled: `merge(maxConcurrent:)`, schedulers, `DispatchQueue`. The arrival order of responses is a parameter (`openFirst`, the order of the batches).
- `share(replay:)`, `throttle`, the collage rendering and the table reloads are not modelled: they do not change the modelled state.
- The download progress, a `Float` ratio, is not modelled. The counter it is computed from is (`OurPlanet.ScanCounts`).
- Only the value the slider sends, an `Int`, is modelled. The `Float` to `Int` conversion and the "Last n days" label are not.
- Randomness is not modelled: the indices `Int.random` would pick are an input to `TopicSubjects.Deal`, each constrained to `0..<cardsRemaining` as `Int.random(in:)` draws it.
- The prints of the chapters, the "Incredible!" message at a score of 5, and the `score = 0` reset after the example are left out: they are output or reset a local.
- CreateRepoRequest: the force-unwrapped `URL(string:)!` is assumed to succeed. Built from a repository name with characters a URL refuses, it would trap in the app.
- `[weak self]` captures whose object is gone are not modelled: the screens are assumed alive while their streams run.
- Combinestagram.CombineScreen.UpdateNavigationIcon: the icon is a flag. Scaling and rendering the image are not modelled.
- Swift's fixed-width `Int` overflow is not modelled: counts and card totals are unbounded integers.
- StringExtensions.CapitalizeFrom: letters are ASCII. Words are delimited by ASCII whitespace, as `capitalized` delimits them by spaces, tabs and line terminators. Unicode case mapping is not modelled.
- StringExtensions.Trim: trims ASCII whitespace and line terminators only; the Unicode members of `.whitespacesAndNewlines` are not modelled.
- TopicFiltering.PhoneNumber: requires at least six joined characters, since `index(_:offsetBy:)` past the end traps at run time.
- Sorting.LexLess: compares names character by character. Swift's `String <` compares by canonical equivalence, so the two differ on names that are not in normalised form.
- The file that defines the GitHub `Event` type is not part of this model. Its equality is taken to be structural over the four fields the feed shows; the deduplication contracts hold for any equality.
- The `as? [[String: Any]]` cast of `parseTopJson` is modelled as "every item is a JSON object" (`GitFeed.AllObjects`).
- The other Basics chapters (observables, transforming, combining) and the list controllers are not modelled.
