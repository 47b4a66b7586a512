/** The two challenges of the subjects chapter: dealing blackjack hands, and a login session. */
module TopicSubjects {
  import opened Optional
  import opened SupportCode

  // ----- Challenge #1: dealing -----

  /** What the `dealtHand` subject is sent for one deal. */
  datatype DealEmission = Next(hand: seq<Card>) | Error(error: HandError)

  /** `deck.remove(at: i)` */
  function RemoveAt(deck: seq<Card>, i: nat): (r: seq<Card>)
    requires i < |deck|
    ensures |r| == |deck| - 1
    ensures multiset(r) + multiset{deck[i]} == multiset(deck)
  {
    assert deck == deck[..i] + [deck[i]] + deck[i + 1..];
    deck[..i] + deck[i + 1..]
  }

  /** The k-th random index lies in `0..<cardsRemaining`, the deck having lost k cards. */
  predicate ValidDraws(deckSize: nat, indices: seq<nat>) {
    |indices| <= deckSize && forall k :: 0 <= k < |indices| ==> indices[k] < deckSize - k
  }

  /** The hand drawn from `deck` at `indices` in turn, each drawn card leaving the deck. */
  function DealFrom(deck: seq<Card>, indices: seq<nat>): (hand: seq<Card>)
    requires ValidDraws(|deck|, indices)
    ensures |hand| == |indices|
    ensures multiset(hand) <= multiset(deck)
    decreases |indices|
  {
    if indices == [] then []
    else
      var rest := RemoveAt(deck, indices[0]);
      assert ValidDraws(|rest|, indices[1..]) by {
        forall k | 0 <= k < |indices[1..]| ensures indices[1..][k] < |rest| - k {
          assert indices[1..][k] == indices[k + 1];
        }
      }
      [deck[indices[0]]] + DealFrom(rest, indices[1..])
  }

  /** One draw: the first card comes from the first index, the rest from the smaller deck. */
  lemma DrawOne(deck: seq<Card>, indices: seq<nat>)
    requires indices != [] && ValidDraws(|deck|, indices)
    ensures indices[0] < |deck| && ValidDraws(|deck| - 1, indices[1..])
    ensures DealFrom(deck, indices) == [deck[indices[0]]] + DealFrom(RemoveAt(deck, indices[0]), indices[1..])
  {
  }

  /**
    The loop of `deal(_:)` over a copy of `source`: `cardCount` draws, each
    at the next of `randomIndices` as a position in what is left of the deck.
  */
  method DrawCards(source: seq<Card>, cardCount: nat, randomIndices: seq<nat>) returns (hand: seq<Card>)
    requires |randomIndices| == cardCount && ValidDraws(|source|, randomIndices)
    ensures hand == DealFrom(source, randomIndices)
  {
    var deck := source;
    var cardsRemaining := |deck|;
    var pending := randomIndices;
    hand := [];
    for k := 0 to cardCount
      invariant cardsRemaining == |deck| == |source| - k && |pending| == cardCount - k
      invariant ValidDraws(|deck|, pending)
      invariant hand + DealFrom(deck, pending) == DealFrom(source, randomIndices)
    {
      var randomIndex := pending[0];
      DrawOne(deck, pending);
      ghost var later := DealFrom(RemoveAt(deck, randomIndex), pending[1..]);
      assert (hand + [deck[randomIndex]]) + later == hand + ([deck[randomIndex]] + later);
      hand := hand + [deck[randomIndex]];
      deck := RemoveAt(deck, randomIndex);
      cardsRemaining := cardsRemaining - 1;
      pending := pending[1..];
    }
  }

  /**
    `deal(_:)` with the random draws supplied: `cardCount` distinct cards of
    the deck; a total over 21 is sent as an error, any other hand as the
    next element.
  */
  method Deal(cardCount: nat, randomIndices: seq<nat>) returns (hand: seq<Card>, emission: DealEmission)
    requires |randomIndices| == cardCount && ValidDraws(|Cards|, randomIndices)
    ensures hand == DealFrom(Cards, randomIndices)
    ensures |hand| == cardCount
    ensures emission.Error? <==> Points(hand) > 21
    ensures emission.Error? ==> emission.error == Busted(Points(hand))
    ensures emission.Next? ==> emission.hand == hand
  {
    hand := DrawCards(Cards, cardCount, randomIndices);
    var total := Points(hand);
    emission := if total > 21 then Error(Busted(total)) else Next(hand);
  }

  /** The subscriber of `dealtHand`: it counts hands, and hears nothing more after an error. */
  class HandSubscriber {
    var score: int
    var terminated: bool

    constructor ()
      ensures score == 0 && !terminated
    {
      score := 0;
      terminated := false;
    }

    method Receive(emission: DealEmission)
      modifies this
      ensures old(terminated) ==> score == old(score) && terminated
      ensures !old(terminated) && emission.Next? ==> score == old(score) + 1 && !terminated
      ensures !old(terminated) && emission.Error? ==> score == old(score) && terminated
    {
      if terminated {
        return;
      }
      match emission
      case Next(_) => score := score + 1;
      case Error(_) => terminated := true;
    }
  }

  // ----- Challenge #2: the session -----

  const ValidUsername: string := "johnny@appleseed.com"
  const ValidPassword: string := "appleseed"

  /** The `BehaviorRelay<UserSession>` and the functions over it. */
  class SessionRelay {
    var value: UserSession

    constructor ()
      ensures value == LoggedOut
    {
      value := LoggedOut;
    }

    /** `logInWith`: the returned value is what `completion` receives. */
    method LogInWith(username: string, password: string) returns (error: Option<LoginError>)
      modifies this
      ensures error == None <==> username == ValidUsername && password == ValidPassword
      ensures error == None ==> value == LoggedIn
      ensures error != None ==> error == Some(InvalidCredentials) && value == old(value)
    {
      if !(username == ValidUsername && password == ValidPassword) {
        error := Some(InvalidCredentials);
        return;
      }
      value := LoggedIn;
      error := None;
    }

    method LogOut()
      modifies this
      ensures value == LoggedOut
    {
      value := LoggedOut;
    }

    /** Whether the guarded action runs. */
    method PerformActionRequiringLoggedInUser() returns (allowed: bool)
      ensures allowed <==> value == LoggedIn
    {
      if value != LoggedIn {
        return false;
      }
      return true;
    }
  }

  /** The script of the challenge: a wrong password, then the right one. */
  method ChallengeTwo() returns (errors: seq<Option<LoginError>>, allowed: seq<bool>)
    ensures errors == [Some(InvalidCredentials), None]
    ensures allowed == [false, true]
  {
    var relay := new SessionRelay();
    errors, allowed := [], [];
    for index := 1 to 3
      invariant index == 1 ==> errors == [] && allowed == [] && relay.value == LoggedOut
      invariant index == 2 ==> errors == [Some(InvalidCredentials)] && allowed == [false] && relay.value == LoggedOut
      invariant index == 3 ==> errors == [Some(InvalidCredentials), None] && allowed == [false, true]
    {
      var password := if index % 2 == 0 then "appleseed" else "password";
      var error := relay.LogInWith(ValidUsername, password);
      var ok := relay.PerformActionRequiringLoggedInUser();
      errors, allowed := errors + [error], allowed + [ok];
    }
  }
}
